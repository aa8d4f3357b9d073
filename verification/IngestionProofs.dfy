/** Safety of the ingestion protocol over every run. */
module IngestionProofs {
  import opened MarketModel
  import opened FactStore
  import opened Ingestion
  import DeltaGate
  import KlineGuard

  // ---- what never shrinks -----------------------------------------------------------

  /** `t` has at least the log, durable prefix and dead letters of `s`. */
  ghost predicate Extends(s: State, t: State) {
    && s.kind == t.kind && s.batchSize == t.batchSize
    && s.log <= t.log
    && Durable(s.db) <= Durable(t.db) < |t.log|
    && s.db.poison <= t.db.poison && s.lost <= t.lost
  }

  lemma SettledBelowExtends(s: State, t: State, n: int)
    requires Extends(s, t) && SettledBelow(s, n)
    ensures SettledBelow(t, n)
  {
    forall o | 0 <= o < n
      ensures Settled(t, o)
    {
      assert Settled(s, o);
    }
  }

  lemma WorkerOKExtends(s: State, t: State, w: Worker)
    requires Extends(s, t) && WorkerOK(s, w)
    ensures WorkerOK(t, w)
  {
    SettledBelowExtends(s, t, Base(w));
    forall i | 0 <= i < |w.pending|
      ensures RecordOK(t, w, i)
    {
      assert RecordOK(s, w, i);
    }
  }

  /** A step that only touches worker `id`, and extends the shared state, keeps the others. */
  lemma OthersKept(s: State, t: State, id: int)
    requires Inv(s) && Extends(s, t)
    requires forall j :: j in t.workers && j != id ==> j in s.workers && t.workers[j] == s.workers[j]
    requires id in t.workers ==> WorkerOK(t, t.workers[id])
    ensures forall j :: j in t.workers ==> WorkerOK(t, t.workers[j])
  {
    forall j | j in t.workers && j != id
      ensures WorkerOK(t, t.workers[j])
    {
      WorkerOKExtends(s, t, s.workers[j]);
    }
  }

  // ---- every batch is well formed ---------------------------------------------------

  lemma {:induction false} RowsOfPending(s: State, w: Worker, n: nat)
    requires WorkerOK(s, w) && n <= |w.pending|
    ensures var rs := w.pending[..n];
      && FromPending(TradeRows(s.inputID, s.partition, rs), s, w, n)
      && FromPending(KlineRows(s.inputID, s.partition, rs), s, w, n)
      && FromPending(DeltaRows(s.inputID, s.partition, rs), s, w, n)
  {
    if n > 0 {
      RowsOfPending(s, w, n - 1);
      assert w.pending[..n][..n - 1] == w.pending[..n - 1];
      assert RecordOK(s, w, n - 1);
    }
  }

  lemma {:induction false} RowsOfKind(s: State, w: Worker, n: nat)
    requires WorkerOK(s, w) && n <= |w.pending|
    ensures var rs := w.pending[..n];
      && (!s.kind.TradeKind? ==> TradeRows(s.inputID, s.partition, rs) == [])
      && (!s.kind.KlineKind? ==> KlineRows(s.inputID, s.partition, rs) == [])
      && (!s.kind.DeltaKind? ==> DeltaRows(s.inputID, s.partition, rs) == [])
  {
    if n > 0 {
      RowsOfKind(s, w, n - 1);
      assert w.pending[..n][..n - 1] == w.pending[..n - 1];
      assert RecordOK(s, w, n - 1);
    }
  }

  /** Rows with this worker's coordinates and increasing offsets among its first `n` records. */
  ghost predicate FromPending<T>(rows: seq<Row<T>>, s: State, w: Worker, n: nat) {
    && (forall i :: 0 <= i < |rows| ==>
          && rows[i].inputID == s.inputID && rows[i].partition == s.partition
          && Base(w) <= rows[i].offset < Base(w) + n)
    && (forall i, j :: 0 <= i < j < |rows| ==> rows[i].offset < rows[j].offset)
  }

  /** Whatever mix of replayed and new records a worker holds, the store accepts its batch. */
  lemma BatchIsValid(s: State, w: Worker)
    requires Inv(s) && WorkerOK(s, w) && w.pending != []
    ensures ValidBatch(BatchOf(s.kind, s.inputID, s.partition, w))
  {
    assert w.pending[..|w.pending|] == w.pending;
    RowsOfPending(s, w, |w.pending|);
    RowsOfKind(s, w, |w.pending|);
    assert RecordOK(s, w, |w.pending| - 1);
    var b := BatchOf(s.kind, s.inputID, s.partition, w);
    assert RowsValid(b.trades, b.progress) && RowsValid(b.klines, b.progress) && RowsValid(b.deltas, b.progress);
  }

  // ---- the unconditional invariant --------------------------------------------------

  lemma InitInv(s: State)
    requires Init(s)
    ensures Inv(s) && TablesInv(s)
  {
  }

  lemma PrepareKeepsWorkerOK(s: State, id: int)
    requires Inv(s) && Enabled(s, Fetch(id))
    ensures WorkerOK(s, Prepare(s.kind, s.workers[id], s.log[s.workers[id].next]))
  {
    var w := s.workers[id];
    var v := Prepare(s.kind, w, s.log[w.next]);
    assert Base(v) == Base(w);
    forall i | 0 <= i < |v.pending|
      ensures RecordOK(s, v, i)
    {
      if i < |w.pending| {
        assert RecordOK(s, w, i);
      }
    }
  }

  /** After the batch is durable, everything the worker has flushed is settled. */
  lemma FlushedIsSettled(s: State, w: Worker)
    requires Inv(s) && WorkerOK(s, w) && w.pending != [] && LastOffset(w) <= Durable(s.db)
    ensures SettledBelow(s, LastOffset(w) + 1)
    ensures LastOffset(w) == Base(w) + |w.pending| - 1
  {
    assert RecordOK(s, w, |w.pending| - 1);
    forall o | 0 <= o < LastOffset(w) + 1
      ensures Settled(s, o)
    {
      if o >= Base(w) {
        assert RecordOK(s, w, o - Base(w));
      }
    }
  }

  /** What a batch write changes, with the validation known to succeed. */
  lemma WriteShape(s: State, id: int, acked: bool)
    requires Inv(s) && Enabled(s, WriteBatch(id, acked))
    ensures var w, t := s.workers[id], Apply(s, WriteBatch(id, acked));
      && t == With(s.(db := t.db), id, if acked then w.(phase := BatchWritten) else w)
      && LastOffset(w) == Base(w) + |w.pending| - 1
      && (if LastOffset(w) <= Durable(s.db) then t.db == s.db
          else t.db == WriteNew(s.db, BatchOf(s.kind, s.inputID, s.partition, w)) && Durable(t.db) == LastOffset(w))
      && t.db.poison == s.db.poison
      && Extends(s, t)
  {
    var w := s.workers[id];
    BatchIsValid(s, w);
    assert RecordOK(s, w, |w.pending| - 1);
  }

  /** Undecodable messages below the new durable offset are dead-lettered or lost. */
  lemma WriteCoversGarbage(s: State, w: Worker, o: int)
    requires Inv(s) && WorkerOK(s, w) && w.pending != []
    requires 0 <= o < Base(w) + |w.pending| && !Decodable(s.kind, s.log[o])
    ensures o in s.db.poison || o in s.lost
  {
    if o < Base(w) {
      assert Settled(s, o);
    } else {
      assert RecordOK(s, w, o - Base(w));
    }
  }

  lemma WriteInv(s: State, id: int, acked: bool)
    requires Inv(s) && Enabled(s, WriteBatch(id, acked))
    ensures Inv(Apply(s, WriteBatch(id, acked)))
  {
    var w := s.workers[id];
    var t := Apply(s, WriteBatch(id, acked));
    WriteShape(s, id, acked);
    SettledBelowExtends(s, t, s.committed + 1);
    forall o | 0 <= o <= Durable(t.db) && !Decodable(t.kind, t.log[o])
      ensures o in t.db.poison || o in t.lost
    {
      if o > Durable(s.db) {
        WriteCoversGarbage(s, w, o);
      }
    }
    WorkerOKExtends(s, t, w);
    WriterOK(t, w, t.workers[id]);
    OthersKept(s, t, id);
  }

  lemma WriterOK(t: State, w: Worker, v: Worker)
    requires WorkerOK(t, w) && w.pending != []
    requires v == w || (v == w.(phase := BatchWritten) && LastOffset(w) <= Durable(t.db))
    ensures WorkerOK(t, v)
  {
    forall i | 0 <= i < |w.pending|
      ensures RecordOK(t, v, i)
    {
      assert RecordOK(t, w, i);
    }
  }

  lemma CommitInv(s: State, id: int, acked: bool)
    requires Inv(s) && Enabled(s, CommitBatch(id, acked))
    ensures Inv(Apply(s, CommitBatch(id, acked)))
  {
    var w := s.workers[id];
    var t := Apply(s, CommitBatch(id, acked));
    FlushedIsSettled(s, w);
    SettledBelowExtends(s, t, LastOffset(w) + 1);
    WorkerOKExtends(s, t, w);
    OthersKept(s, t, id);
  }

  lemma PoisonInv(s: State, id: int, outcome: PoisonOutcome)
    requires Inv(s) && Enabled(s, WritePoison(id, outcome))
    ensures Inv(Apply(s, WritePoison(id, outcome)))
  {
    var w := s.workers[id];
    var t := Apply(s, WritePoison(id, outcome));
    SettledBelowExtends(s, t, s.committed + 1);
    SettledBelowExtends(s, t, Base(w));
    assert Settled(t, w.next - 1);
    OthersKept(s, t, id);
  }

  lemma CommitPoisonInv(s: State, id: int, done: bool)
    requires Inv(s) && Enabled(s, CommitPoison(id, done))
    ensures Inv(Apply(s, CommitPoison(id, done)))
  {
    var w := s.workers[id];
    var t := Apply(s, CommitPoison(id, done));
    SettledBelowExtends(s, t, Base(w));
    SettledBelowExtends(s, t, s.committed + 1);
    OthersKept(s, t, id);
  }

  lemma LocalInv(s: State, step: Step)
    requires Inv(s) && Enabled(s, step)
    requires || step.Produce? || step.Start? || step.Exit? || step.Load? || step.Fetch?
             || step.BeginFlush? || step.Reflush?
    ensures Inv(Apply(s, step))
  {
    var t := Apply(s, step);
    assert Extends(s, t);
    SettledBelowExtends(s, t, s.committed + 1);
    if step.Produce? {
      OthersKept(s, t, -1) by {
        forall j | j in t.workers ensures WorkerOK(t, t.workers[j]) { WorkerOKExtends(s, t, s.workers[j]); }
      }
    } else {
      if step.Fetch? {
        PrepareKeepsWorkerOK(s, step.id);
        WorkerOKExtends(s, t, t.workers[step.id]);
      } else if step.id in s.workers {
        WorkerOKExtends(s, t, s.workers[step.id]);
        if step.id in t.workers {
          var w, v := s.workers[step.id], t.workers[step.id];
          forall i | 0 <= i < |v.pending|
            ensures RecordOK(t, v, i)
          {
            assert RecordOK(t, w, i);
          }
        }
      }
      OthersKept(s, t, step.id);
    }
  }

  /** Every step keeps the unconditional invariant. */
  lemma StepKeepsInv(s: State, step: Step)
    requires Inv(s) && Enabled(s, step)
    ensures Inv(Apply(s, step))
  {
    match step
    case WriteBatch(id, acked) => WriteInv(s, id, acked);
    case CommitBatch(id, acked) => CommitInv(s, id, acked);
    case WritePoison(id, outcome) => PoisonInv(s, id, outcome);
    case CommitPoison(id, done) => CommitPoisonInv(s, id, done);
    case _ => LocalInv(s, step);
  }

  // ---- the tables -------------------------------------------------------------------

  /** Messages appended later do not change the replay of an earlier prefix. */
  lemma {:induction false} ReplayOfPrefix(kind: Kind, log: seq<Payload>, more: seq<Payload>, n: int)
    requires log <= more && n <= |log|
    ensures HighWater(kind, more, n) == HighWater(kind, log, n)
    ensures Replay(kind, more, n) == Replay(kind, log, n)
    ensures Leader(kind, more, n) == Leader(kind, log, n)
    decreases n
  {
    if n > 0 {
      ReplayOfPrefix(kind, log, more, n - 1);
    }
  }

  lemma RegularPrefix(kind: Kind, log: seq<Payload>, more: seq<Payload>)
    requires log <= more && Regular(kind, more)
    ensures Regular(kind, log)
  {
    if kind.DeltaKind? {
      forall o | 0 <= o < |log|
        ensures !Twin(log, o)
        ensures Decodable(kind, log[o]) ==> DeltaGate.DeltaTerminal(log[o].fact.delta).Some?
      {
        assert !Twin(more, o) && log[o] == more[o];
        ReplayOfPrefix(kind, log, more, o);
      }
    }
  }

  /** The high-water mark is the leader's terminal id. */
  lemma {:induction false} LeaderIsHighWater(log: seq<Payload>, n: int)
    requires n <= |log|
    ensures HighWater(DeltaKind, log, n) == TerminalOf(Leader(DeltaKind, log, n))
    decreases n
  {
    if n > 0 {
      LeaderIsHighWater(log, n - 1);
    }
  }

  /** Stretches without decodable messages leave tables and high-water mark alone. */
  lemma {:induction false} NothingBetween(kind: Kind, log: seq<Payload>, m: int, n: int)
    requires 0 <= m <= n <= |log|
    requires forall o :: m <= o < n ==> !Decodable(kind, log[o])
    ensures Replay(kind, log, n) == Replay(kind, log, m)
    ensures Leader(kind, log, n) == Leader(kind, log, m)
    decreases n
  {
    if m < n {
      NothingBetween(kind, log, m, n - 1);
    }
  }

  lemma {:induction false} HighWaterGrows(kind: Kind, log: seq<Payload>, m: int, n: int)
    requires 0 <= m <= n <= |log|
    ensures HighWater(kind, log, m).Some? ==>
      HighWater(kind, log, n).Some? && HighWater(kind, log, m).value <= HighWater(kind, log, n).value
    decreases n
  {
    if m < n {
      HighWaterGrows(kind, log, m, n - 1);
    }
  }

  lemma CursorAtExtends(s: State, t: State, c: Option<OrderBookDelta>, n: int)
    requires s.kind == t.kind && s.log <= t.log && n <= |s.log| && CursorAt(s, c, n)
    ensures CursorAt(t, c, n)
  {
    ReplayOfPrefix(s.kind, s.log, t.log, n);
  }

  /** What a worker is about to write depends on the log and the worker only. */
  lemma PendingExactExtends(s: State, t: State, w: Worker)
    requires Extends(s, t) && WorkerOK(s, w) && WorkerOK(t, w) && Durable(s.db) < |s.log| && PendingExact(s, w)
    ensures PendingExact(t, w)
  {
    if s.kind.DeltaKind? {
      CursorAtExtends(s, t, w.cursor, Max(w.next, w.horizon));
    }
    forall i | 0 <= i < |w.pending|
      ensures RecordOK(t, w, i) && RecordExact(t, w, w.pending[i])
    {
      assert RecordOK(s, w, i) && RecordExact(s, w, w.pending[i]);
      ReplayOfPrefix(s.kind, s.log, t.log, w.pending[i].offset);
    }
  }

  /** A step that leaves the tables alone and touches only worker `id` keeps the exactness
      of everything else. */
  lemma TablesKept(s: State, t: State, id: int)
    requires Inv(s) && Inv(t) && TablesInv(s) && Extends(s, t)
    requires s.db.tables == t.db.tables && s.db.progress == t.db.progress
    requires forall j :: j in t.workers && j != id ==> j in s.workers && t.workers[j] == s.workers[j]
    requires id in t.workers && t.workers[id].loaded && Regular(t.kind, t.log) ==> PendingExact(t, t.workers[id])
    ensures TablesInv(t)
  {
    if Regular(t.kind, t.log) {
      RegularPrefix(s.kind, s.log, t.log);
      ReplayOfPrefix(s.kind, s.log, t.log, Durable(s.db) + 1);
      OtherPendingExact(s, t, id);
    }
  }

  /** With regular deltas the gate is the plain test "new maximum", for the message at the
      cursor's own position and for every earlier one that is read again. */
  lemma GateIsMaximum(s: State, c: Option<OrderBookDelta>, n: int, o: int)
    requires s.kind.DeltaKind? && Regular(s.kind, s.log) && n <= |s.log| && CursorAt(s, c, n)
    requires 0 <= o < |s.log| && o <= n && Decodable(s.kind, s.log[o])
    ensures DeltaGate.CheckDeltaContinuity(c, s.log[o].fact.delta) <==> o == n && Counts(s.kind, s.log, o)
  {
    assert !Twin(s.log, o);
    LeaderIsHighWater(s.log, n);
    if o < n {
      HighWaterGrows(s.kind, s.log, o + 1, n);
    }
  }

  /** The cursor after a fetch stands at the new read position. */
  lemma FetchCursor(s: State, w: Worker)
    requires s.kind.DeltaKind? && Regular(s.kind, s.log) && 0 <= w.next < |s.log| && w.horizon <= |s.log|
    requires w.cached < Max(w.next, w.horizon) && CursorAt(s, w.cursor, Max(w.next, w.horizon))
    ensures CursorAt(s, Prepare(s.kind, w, s.log[w.next]).cursor, Max(w.next + 1, w.horizon))
  {
    if Decodable(s.kind, s.log[w.next]) {
      GateIsMaximum(s, w.cursor, Max(w.next, w.horizon), w.next);
    }
  }

  /** The record a fetch appends is the one the replay would use. */
  lemma FetchRecord(s: State, w: Worker)
    requires Regular(s.kind, s.log) && 0 <= w.next < |s.log| && w.horizon <= |s.log|
    requires s.kind.DeltaKind? ==> CursorAt(s, w.cursor, Max(w.next, w.horizon))
    requires !Prepare(s.kind, w, s.log[w.next]).bad && !w.bad
    ensures var v := Prepare(s.kind, w, s.log[w.next]);
      |v.pending| == |w.pending| + 1 && v.pending[|w.pending|].offset == w.next
      && RecordExact(s, v, v.pending[|w.pending|])
  {
    if s.kind.DeltaKind? && Decodable(s.kind, s.log[w.next]) {
      GateIsMaximum(s, w.cursor, Max(w.next, w.horizon), w.next);
    }
  }

  lemma FetchExact(s: State, id: int)
    requires Inv(s) && TablesInv(s) && Regular(s.kind, s.log) && Enabled(s, Fetch(id))
    ensures var v := Prepare(s.kind, s.workers[id], s.log[s.workers[id].next]);
      WorkerOK(s, v) && PendingExact(s, v)
  {
    PrepareKeepsWorkerOK(s, id);
    assert PendingExact(s, s.workers[id]);
    FetchedExact(s, s.workers[id]);
  }

  lemma FetchedExact(s: State, w: Worker)
    requires WorkerOK(s, w) && Durable(s.db) < |s.log| && PendingExact(s, w) && Regular(s.kind, s.log)
    requires !w.bad && 0 <= w.next < |s.log| && WorkerOK(s, Prepare(s.kind, w, s.log[w.next]))
    ensures PendingExact(s, Prepare(s.kind, w, s.log[w.next]))
  {
    var v := Prepare(s.kind, w, s.log[w.next]);
    if s.kind.DeltaKind? {
      FetchCursor(s, w);
    }
    if !v.bad {
      FetchRecord(s, w);
    }
    FetchPending(s, w, v);
  }

  lemma FetchPending(s: State, w: Worker, v: Worker)
    requires WorkerOK(s, w) && WorkerOK(s, v) && v.cached == w.cached && v.horizon == w.horizon
    requires v.pending == w.pending ||
             (|v.pending| == |w.pending| + 1 && v.pending[..|w.pending|] == w.pending
              && 0 <= v.pending[|w.pending|].offset < |s.log| && RecordExact(s, v, v.pending[|w.pending|]))
    requires forall i :: 0 <= i < |w.pending| ==> RecordOK(s, w, i) && RecordExact(s, w, w.pending[i])
    ensures forall i :: 0 <= i < |v.pending| ==> RecordOK(s, v, i) && RecordExact(s, v, v.pending[i])
  {
    forall i | 0 <= i < |v.pending|
      ensures RecordOK(s, v, i) && RecordExact(s, v, v.pending[i])
    {
      assert RecordOK(s, v, i);
      if i < |w.pending| {
        assert v.pending[i] == v.pending[..|w.pending|][i] == w.pending[i];
        assert RecordOK(s, w, i) && RecordExact(s, w, w.pending[i]);
      }
    }
  }

  /** Applies the new records' facts in order. */
  function FoldRecords(t: Tables, rs: seq<Record>, durable: int): Tables {
    if rs == [] then t
    else
      var front, r := FoldRecords(t, rs[..|rs| - 1], durable), rs[|rs| - 1];
      if r.offset > durable && r.fact.Some? then ApplyFact(front, r.offset, r.fact.value) else front
  }

  /** Splitting a batch by table, filtering each list and writing it row by row has the same
      effect as applying the new facts in arrival order. */
  lemma {:induction false} RowsAreFold(t: Tables, rs: seq<Record>, p: Progress, durable: int)
    requires forall i :: 0 <= i < |rs| ==> rs[i].offset <= p.durableOffset
    ensures FoldRecords(t, rs, durable) == Tables(
      InsertTrades(t.trades, AfterOffset(TradeRows(p.inputID, p.partition, rs), p, durable)),
      UpsertKlines(t.klines, AfterOffset(KlineRows(p.inputID, p.partition, rs), p, durable)),
      CopyDeltas(t.deltas, AfterOffset(DeltaRows(p.inputID, p.partition, rs), p, durable)))
  {
    if rs != [] {
      var front, r := rs[..|rs| - 1], rs[|rs| - 1];
      RowsAreFold(t, front, p, durable);
      TradeRowLast(t.trades, rs, p, durable);
      KlineRowLast(t.klines, rs, p, durable);
      DeltaRowLast(t.deltas, rs, p, durable);
    }
  }

  /** Is the record's fact new to the store? */
  predicate IsFresh(r: Record, durable: int) {
    r.offset > durable && r.fact.Some?
  }

  lemma TradeRowLast(table: map<int, Trade>, rs: seq<Record>, p: Progress, durable: int)
    requires rs != [] && rs[|rs| - 1].offset <= p.durableOffset
    ensures var r, rows := rs[|rs| - 1], AfterOffset(TradeRows(p.inputID, p.partition, rs[..|rs| - 1]), p, durable);
      InsertTrades(table, AfterOffset(TradeRows(p.inputID, p.partition, rs), p, durable)) ==
      if IsFresh(r, durable) && r.fact.value.TradeFact?
      then InsertTrade(InsertTrades(table, rows), r.offset, r.fact.value.trade)
      else InsertTrades(table, rows)
  {
    var r := rs[|rs| - 1];
    if r.fact.Some? && r.fact.value.TradeFact? {
      var front := TradeRows(p.inputID, p.partition, rs[..|rs| - 1]);
      var row := Row(p.inputID, p.partition, r.offset, r.fact.value.trade);
      assert TradeRows(p.inputID, p.partition, rs) == front + [row];
      LastRow(front, row, p, durable);
    }
  }

  lemma KlineRowLast(table: map<KlineKey, Kline>, rs: seq<Record>, p: Progress, durable: int)
    requires rs != [] && rs[|rs| - 1].offset <= p.durableOffset
    ensures var r, rows := rs[|rs| - 1], AfterOffset(KlineRows(p.inputID, p.partition, rs[..|rs| - 1]), p, durable);
      UpsertKlines(table, AfterOffset(KlineRows(p.inputID, p.partition, rs), p, durable)) ==
      if IsFresh(r, durable) && r.fact.value.KlineFact?
      then KlineGuard.UpsertTable(UpsertKlines(table, rows), r.fact.value.kline)
      else UpsertKlines(table, rows)
  {
    var r := rs[|rs| - 1];
    if r.fact.Some? && r.fact.value.KlineFact? {
      var front := KlineRows(p.inputID, p.partition, rs[..|rs| - 1]);
      var row := Row(p.inputID, p.partition, r.offset, r.fact.value.kline);
      assert KlineRows(p.inputID, p.partition, rs) == front + [row];
      LastRow(front, row, p, durable);
    }
  }

  lemma DeltaRowLast(table: seq<(int, OrderBookDelta)>, rs: seq<Record>, p: Progress, durable: int)
    requires rs != [] && rs[|rs| - 1].offset <= p.durableOffset
    ensures var r, rows := rs[|rs| - 1], AfterOffset(DeltaRows(p.inputID, p.partition, rs[..|rs| - 1]), p, durable);
      CopyDeltas(table, AfterOffset(DeltaRows(p.inputID, p.partition, rs), p, durable)) ==
      if IsFresh(r, durable) && r.fact.value.DeltaFact? then CopyDeltas(table, rows) + [(r.offset, r.fact.value.delta)]
      else CopyDeltas(table, rows)
  {
    var r := rs[|rs| - 1];
    if r.fact.Some? && r.fact.value.DeltaFact? {
      var front := DeltaRows(p.inputID, p.partition, rs[..|rs| - 1]);
      var row := Row(p.inputID, p.partition, r.offset, r.fact.value.delta);
      assert DeltaRows(p.inputID, p.partition, rs) == front + [row];
      LastRow(front, row, p, durable);
    }
  }

  lemma LastRow<T>(front: seq<Row<T>>, r: Row<T>, p: Progress, durable: int)
    ensures AfterOffset(front + [r], p, durable) ==
      if IsNew(r, p, durable) then AfterOffset(front, p, durable) + [r] else AfterOffset(front, p, durable)
    ensures AfterOffset(front + [r], p, durable) != [] && IsNew(r, p, durable) ==>
      AfterOffset(front + [r], p, durable)[..|AfterOffset(front + [r], p, durable)| - 1] ==
      AfterOffset(front, p, durable)
  {
    assert (front + [r])[..|front|] == front;
  }

  /** Consecutive records that hold what the replay would store continue the replay. */
  lemma {:induction false} FoldStretch(kind: Kind, log: seq<Payload>, rs: seq<Record>, base: int, d: int)
    requires 0 <= base && base + |rs| <= |log| && -1 <= d < |log|
    requires forall i :: 0 <= i < |rs| ==> rs[i].offset == base + i
    requires forall i :: 0 <= i < |rs| && base + i > d ==>
      rs[i].fact == if Counts(kind, log, base + i) then Some(log[base + i].fact) else None
    requires Replay(kind, log, d + 1) == Replay(kind, log, Max(d + 1, base))
    ensures FoldRecords(Replay(kind, log, d + 1), rs, d) == Replay(kind, log, Max(d + 1, base + |rs|))
  {
    if rs != [] {
      var front := rs[..|rs| - 1];
      assert forall i :: 0 <= i < |front| ==> front[i] == rs[i];
      FoldStretch(kind, log, front, base, d);
    }
  }

  /** The new part of a worker's batch is the next stretch of the replay. */
  lemma FoldIsReplay(s: State, w: Worker)
    requires Inv(s) && WorkerOK(s, w) && PendingExact(s, w)
    ensures Base(w) + |w.pending| <= |s.log|
    ensures FoldRecords(Replay(s.kind, s.log, Durable(s.db) + 1), w.pending, Durable(s.db))
         == Replay(s.kind, s.log, Max(Durable(s.db) + 1, Base(w) + |w.pending|))
  {
    GapIsGarbage(s, Base(w));
    PendingRecords(s, w);
    FoldStretch(s.kind, s.log, w.pending, Base(w), Durable(s.db));
  }

  lemma PendingRecords(s: State, w: Worker)
    requires WorkerOK(s, w) && Durable(s.db) < |s.log| && PendingExact(s, w)
    ensures Base(w) + |w.pending| <= |s.log|
    ensures forall i :: 0 <= i < |w.pending| ==> w.pending[i].offset == Base(w) + i
    ensures forall i :: 0 <= i < |w.pending| && Base(w) + i > Durable(s.db) ==>
      w.pending[i].fact == if Counts(s.kind, s.log, Base(w) + i) then Some(s.log[Base(w) + i].fact) else None
  {
    forall i | 0 <= i < |w.pending|
      ensures w.pending[i].offset == Base(w) + i
      ensures Base(w) + i > Durable(s.db) ==>
        w.pending[i].fact == if Counts(s.kind, s.log, Base(w) + i) then Some(s.log[Base(w) + i].fact) else None
    {
      PendingRecord(s, w, i);
    }
  }

  lemma PendingRecord(s: State, w: Worker, i: nat)
    requires WorkerOK(s, w) && Durable(s.db) < |s.log| && PendingExact(s, w) && i < |w.pending|
    ensures Base(w) + i < |s.log| && w.pending[i].offset == Base(w) + i
    ensures Base(w) + i > Durable(s.db) ==>
      w.pending[i].fact == if Counts(s.kind, s.log, Base(w) + i) then Some(s.log[Base(w) + i].fact) else None
  {
    assert RecordOK(s, w, i) && RecordExact(s, w, w.pending[i]);
  }

  /** Between the durable offset and a settled position only undecodable messages can lie. */
  lemma GapIsGarbage(s: State, n: int)
    requires Inv(s) && SettledBelow(s, n)
    ensures Replay(s.kind, s.log, Durable(s.db) + 1) == Replay(s.kind, s.log, Max(Durable(s.db) + 1, n))
    ensures Leader(s.kind, s.log, Durable(s.db) + 1) == Leader(s.kind, s.log, Max(Durable(s.db) + 1, n))
  {
    var d := Durable(s.db);
    if d + 1 < n {
      forall o | d + 1 <= o < n
        ensures !Decodable(s.kind, s.log[o])
      {
        assert Settled(s, o);
      }
      NothingBetween(s.kind, s.log, d + 1, n);
    }
  }

  /** A write that goes beyond the durable offset advances the tables along the replay. */
  lemma NewWriteIsReplay(s: State, w: Worker)
    requires Inv(s) && WorkerOK(s, w) && PendingExact(s, w)
    requires s.db.tables == Replay(s.kind, s.log, Durable(s.db) + 1)
    requires w.pending != [] && LastOffset(w) > Durable(s.db)
    ensures var db := WriteNew(s.db, BatchOf(s.kind, s.inputID, s.partition, w));
      && 0 <= LastOffset(w) < |s.log|
      && Durable(db) == LastOffset(w)
      && db.tables == Replay(s.kind, s.log, LastOffset(w) + 1)
  {
    assert RecordOK(s, w, |w.pending| - 1);
    WriteNewIsFold(s, w);
    FoldIsReplay(s, w);
  }

  lemma WriteNewIsFold(s: State, w: Worker)
    requires Inv(s) && WorkerOK(s, w) && w.pending != []
    ensures WriteNew(s.db, BatchOf(s.kind, s.inputID, s.partition, w)).tables ==
            FoldRecords(s.db.tables, w.pending, Durable(s.db))
  {
    assert RecordOK(s, w, |w.pending| - 1);
    forall i | 0 <= i < |w.pending|
      ensures w.pending[i].offset <= LastOffset(w)
    {
      assert RecordOK(s, w, i);
    }
    RowsAreFold(s.db.tables, w.pending, BatchOf(s.kind, s.inputID, s.partition, w).progress, Durable(s.db));
  }

  /** The cursor written with a batch stands exactly at the batch's last offset. */
  lemma WrittenCursor(s: State, w: Worker)
    requires Inv(s) && s.kind.DeltaKind? && WorkerOK(s, w) && PendingExact(s, w)
    requires w.pending != [] && LastOffset(w) > Durable(s.db)
    ensures var db := WriteNew(s.db, BatchOf(s.kind, s.inputID, s.partition, w));
      LastOffset(w) < |s.log| && CursorAt(s, StoredCursor(db), LastOffset(w) + 1)
  {
    assert RecordOK(s, w, |w.pending| - 1);
    NothingBetween(s.kind, s.log, LastOffset(w) + 1, w.next);
  }

  lemma WriteTables(s: State, id: int, acked: bool)
    requires Inv(s) && TablesInv(s) && Enabled(s, WriteBatch(id, acked)) && Inv(Apply(s, WriteBatch(id, acked)))
    ensures TablesInv(Apply(s, WriteBatch(id, acked)))
  {
    WriteShape(s, id, acked);
    WriteTablesTo(s, Apply(s, WriteBatch(id, acked)), id);
  }

  lemma WriteTablesTo(s: State, t: State, id: int)
    requires Inv(s) && TablesInv(s) && Inv(t) && Extends(s, t) && t.log == s.log
    requires id in s.workers && id in t.workers && s.workers[id].loaded && s.workers[id].pending != []
    requires t.workers == s.workers[id := t.workers[id]]
    requires t.workers[id] == s.workers[id] || t.workers[id] == s.workers[id].(phase := BatchWritten)
    requires if LastOffset(s.workers[id]) <= Durable(s.db) then t.db == s.db
             else t.db == WriteNew(s.db, BatchOf(s.kind, s.inputID, s.partition, s.workers[id]))
    ensures TablesInv(t)
  {
    if Regular(s.kind, s.log) {
      var w := s.workers[id];
      assert PendingExact(s, w);
      PendingExactCarried(s, t, w, t.workers[id]);
      OtherPendingExact(s, t, id);
      if LastOffset(w) > Durable(s.db) {
        NewTables(s, t, w);
      } else {
        SameTables(s, t);
      }
    }
  }

  lemma SameTables(s: State, t: State)
    requires Inv(s) && TablesInv(s) && Inv(t) && Regular(s.kind, s.log)
    requires t.kind == s.kind && t.log == s.log && t.db.tables == s.db.tables && t.db.progress == s.db.progress
    ensures t.db.tables == Replay(t.kind, t.log, Durable(t.db) + 1)
    ensures t.kind.DeltaKind? ==> CursorAt(t, StoredCursor(t.db), Durable(t.db) + 1)
  {
    if s.kind.DeltaKind? {
      CursorAtExtends(s, t, StoredCursor(t.db), Durable(t.db) + 1);
    }
  }

  lemma NewTables(s: State, t: State, w: Worker)
    requires Inv(s) && TablesInv(s) && Inv(t) && Regular(s.kind, s.log) && WorkerOK(s, w) && PendingExact(s, w)
    requires t.kind == s.kind && t.log == s.log && w.pending != [] && LastOffset(w) > Durable(s.db)
    requires t.db == WriteNew(s.db, BatchOf(s.kind, s.inputID, s.partition, w))
    ensures t.db.tables == Replay(t.kind, t.log, Durable(t.db) + 1)
    ensures t.kind.DeltaKind? ==> CursorAt(t, StoredCursor(t.db), Durable(t.db) + 1)
  {
    NewWriteIsReplay(s, w);
    if s.kind.DeltaKind? {
      WrittenCursor(s, w);
      CursorAtExtends(s, t, StoredCursor(t.db), Durable(t.db) + 1);
    }
  }

  lemma OtherPendingExact(s: State, t: State, id: int)
    requires Inv(s) && Inv(t) && Extends(s, t)
    requires forall j :: j in s.workers && s.workers[j].loaded ==> PendingExact(s, s.workers[j])
    requires forall j :: j in t.workers && j != id ==> j in s.workers && t.workers[j] == s.workers[j]
    ensures forall j :: j in t.workers && j != id && t.workers[j].loaded ==> PendingExact(t, t.workers[j])
  {
    forall j | j in t.workers && j != id && t.workers[j].loaded
      ensures PendingExact(t, t.workers[j])
    {
      PendingExactExtends(s, t, t.workers[j]);
    }
  }

  /** A worker that keeps its position, cursor and batch (or drops the batch) stays exact. */
  lemma PendingExactCarried(s: State, t: State, w: Worker, v: Worker)
    requires s.kind == t.kind && s.log == t.log && Durable(s.db) < |s.log| && Durable(t.db) < |t.log|
    requires WorkerOK(s, w) && WorkerOK(t, v) && PendingExact(s, w)
    requires v.next == w.next && v.horizon == w.horizon && v.cursor == w.cursor
    requires v.pending == [] || (v.pending == w.pending && v.cached == w.cached)
    ensures PendingExact(t, v)
  {
    forall i | 0 <= i < |v.pending|
      ensures RecordOK(t, v, i) && RecordExact(t, v, v.pending[i])
    {
      assert RecordOK(s, w, i) && RecordExact(s, w, w.pending[i]);
    }
  }

  lemma ProduceTables(s: State, p: Payload)
    requires Inv(s) && TablesInv(s) && Inv(Apply(s, Produce(p)))
    ensures TablesInv(Apply(s, Produce(p)))
  {
    var t := Apply(s, Produce(p));
    if Regular(t.kind, t.log) {
      RegularPrefix(s.kind, s.log, t.log);
      ReplayOfPrefix(s.kind, s.log, t.log, Durable(s.db) + 1);
      forall j | j in t.workers && t.workers[j].loaded
        ensures PendingExact(t, t.workers[j])
      {
        PendingExactExtends(s, t, t.workers[j]);
      }
    }
  }

  lemma FetchTables(s: State, id: int)
    requires Inv(s) && TablesInv(s) && Enabled(s, Fetch(id)) && Inv(Apply(s, Fetch(id)))
    ensures TablesInv(Apply(s, Fetch(id)))
  {
    var t := Apply(s, Fetch(id));
    if Regular(s.kind, s.log) {
      FetchExact(s, id);
      PendingExactCarried(s, t, t.workers[id], t.workers[id]);
    }
    TablesKept(s, t, id);
  }

  lemma LoadTables(s: State, id: int)
    requires Inv(s) && TablesInv(s) && Enabled(s, Load(id)) && Inv(Apply(s, Load(id)))
    ensures TablesInv(Apply(s, Load(id)))
  {
    var t := Apply(s, Load(id));
    if Regular(s.kind, s.log) && s.kind.DeltaKind? {
      LoadedCursor(s, s.workers[id]);
    }
    assert Regular(s.kind, s.log) ==> PendingExact(t, t.workers[id]);
    TablesKept(s, t, id);
  }

  lemma OtherTables(s: State, step: Step)
    requires Inv(s) && TablesInv(s) && Enabled(s, step) && Inv(Apply(s, step))
    requires !step.Produce? && !step.Fetch? && !step.Load? && !step.WriteBatch?
    ensures TablesInv(Apply(s, step))
  {
    var t := Apply(s, step);
    OtherShape(s, step);
    if Regular(s.kind, s.log) && step.id in t.workers && t.workers[step.id].loaded {
      assert PendingExact(s, s.workers[step.id]);
      PendingExactCarried(s, t, s.workers[step.id], t.workers[step.id]);
    }
    TablesKept(s, t, step.id);
  }

  /** The remaining steps leave tables, progress and log alone, and a worker's cursor too. */
  lemma OtherShape(s: State, step: Step)
    requires Inv(s) && Enabled(s, step)
    requires !step.Produce? && !step.Fetch? && !step.Load? && !step.WriteBatch?
    ensures var t := Apply(s, step);
      && Extends(s, t) && t.log == s.log && t.db.tables == s.db.tables && t.db.progress == s.db.progress
      && (forall j :: j in t.workers && j != step.id ==> j in s.workers && t.workers[j] == s.workers[j])
      && (step.id in t.workers && t.workers[step.id].loaded ==>
            && step.id in s.workers
            && var w, v := s.workers[step.id], t.workers[step.id];
               && w.loaded && v.next == w.next && v.horizon == w.horizon && v.cursor == w.cursor
               && (v.pending == [] || (v.pending == w.pending && v.cached == w.cached)))
  {
  }

  /** Every step keeps the tables equal to the replay. */
  lemma StepKeepsTables(s: State, step: Step)
    requires Inv(s) && TablesInv(s) && Enabled(s, step)
    ensures Inv(Apply(s, step)) && TablesInv(Apply(s, step))
  {
    StepKeepsInv(s, step);
    match step
    case WriteBatch(id, acked) => WriteTables(s, id, acked);
    case Produce(p) => ProduceTables(s, p);
    case Fetch(id) => FetchTables(s, id);
    case Load(id) => LoadTables(s, id);
    case _ => OtherTables(s, step);
  }

  /** The cursor loaded with progress stands where the worker's read position needs it. */
  lemma LoadedCursor(s: State, w: Worker)
    requires Inv(s) && TablesInv(s) && Regular(s.kind, s.log) && s.kind.DeltaKind?
    requires WorkerOK(s, w) && !w.loaded && w.cursor.None?
    ensures var v := LoadProgress(s.kind, w, s.db.progress);
      Max(v.next, v.horizon) <= |s.log| && CursorAt(s, v.cursor, Max(v.next, v.horizon))
  {
    GapIsGarbage(s, w.next);
  }

  // ---- whole runs -------------------------------------------------------------------

  lemma {:induction false} RunKeepsInv(s: State, steps: seq<Step>)
    requires Inv(s) && TablesInv(s) && Executable(s, steps)
    ensures Inv(Run(s, steps)) && TablesInv(Run(s, steps))
    decreases |steps|
  {
    if steps != [] {
      StepKeepsTables(s, steps[0]);
      RunKeepsInv(Apply(s, steps[0]), steps[1..]);
    }
  }

  /** Exactly-once effect. After any interleaving of fetches, writes, commits, crashes and
      restarts by any number of workers, the trade and kline tables are the in-order
      insert-if-absent / guarded-upsert fold over offsets 0..durable; for regular deltas so
      is the delta table. No worker believes more to be durable than is. */
  lemma TablesAreReplay(s: State, steps: seq<Step>)
    requires Init(s) && Executable(s, steps)
    ensures var t := Run(s, steps);
      && -1 <= Durable(t.db) < |t.log|
      && (Regular(t.kind, t.log) ==> t.db.tables == Replay(t.kind, t.log, Durable(t.db) + 1))
      && (!t.kind.DeltaKind? ==> t.db.tables == Replay(t.kind, t.log, Durable(t.db) + 1))
      && (forall id :: id in t.workers ==> t.workers[id].cached <= Durable(t.db))
  {
    InitInv(s);
    RunKeepsInv(s, steps);
  }

  /** No loss. Every offset at or below the committed Kafka offset is a decodable message in
      the durable prefix, or has a dead-letter row, or its dead-letter write failed; only
      undecodable messages have dead-letter rows. */
  lemma NothingCommittedIsLost(s: State, steps: seq<Step>)
    requires Init(s) && Executable(s, steps)
    ensures var t := Run(s, steps);
      && t.committed < |t.log|
      && (forall o :: 0 <= o <= t.committed ==>
            if Decodable(t.kind, t.log[o]) then o <= Durable(t.db) else o in t.db.poison || o in t.lost)
      && (forall o :: o in t.db.poison ==> 0 <= o < |t.log| && !Decodable(t.kind, t.log[o]))
  {
    InitInv(s);
    RunKeepsInv(s, steps);
    var t := Run(s, steps);
    forall o | 0 <= o <= t.committed
      ensures if Decodable(t.kind, t.log[o]) then o <= Durable(t.db) else o in t.db.poison || o in t.lost
    {
      assert Settled(t, o);
    }
  }

  predicate NoPoisonFailure(steps: seq<Step>) {
    forall i :: 0 <= i < |steps| ==> !(steps[i].WritePoison? && steps[i].outcome == Failed)
  }

  lemma {:induction false} LostOnlyByFailure(s: State, steps: seq<Step>)
    requires Executable(s, steps) && NoPoisonFailure(steps)
    ensures Run(s, steps).lost == s.lost
    decreases |steps|
  {
    if steps != [] {
      LostOnlyByFailure(Apply(s, steps[0]), steps[1..]);
    }
  }

  /** When no dead-letter write fails, every committed offset is durable or dead-lettered. */
  lemma CommittedIsDurableOrDeadLettered(s: State, steps: seq<Step>)
    requires Init(s) && Executable(s, steps) && NoPoisonFailure(steps)
    ensures var t := Run(s, steps);
      && t.committed < |t.log|
      && (forall o :: 0 <= o <= t.committed ==>
            (Decodable(t.kind, t.log[o]) && o <= Durable(t.db)) || o in t.db.poison)
  {
    NothingCommittedIsLost(s, steps);
    LostOnlyByFailure(s, steps);
  }

  /** The premise is needed: wherever the dead-letter write of an offset without a row fails and
      a decodable message follows, the worker moves on, and flushing that message commits past
      the undecodable offset, which has no row afterwards either. */
  lemma FailedPoisonWriteIsCommittedPast(s: State, id: int)
    requires Inv(s) && Enabled(s, WritePoison(id, Failed)) && s.workers[id].next - 1 !in s.db.poison
    requires s.workers[id].next < |s.log| && Decodable(s.kind, s.log[s.workers[id].next])
    ensures var steps := [WritePoison(id, Failed), Fetch(id), BeginFlush(id)] + FlushSteps(id);
      && Executable(s, steps)
      && var t, o := Run(s, steps), s.workers[id].next - 1;
         0 <= o < t.committed < |t.log| && !Decodable(t.kind, t.log[o]) && o !in t.db.poison
  {
    var s1 := Apply(s, WritePoison(id, Failed));
    var s2 := Apply(s1, Fetch(id));
    ReadPastFailure(s, id);
    FlushNow(s2, id);
    RunOfOne(s1, Fetch(id), [BeginFlush(id)] + FlushSteps(id));
    RunOfOne(s, WritePoison(id, Failed), [Fetch(id)] + ([BeginFlush(id)] + FlushSteps(id)));
    assert [WritePoison(id, Failed), Fetch(id), BeginFlush(id)] + FlushSteps(id) ==
      [WritePoison(id, Failed)] + ([Fetch(id)] + ([BeginFlush(id)] + FlushSteps(id)));
  }

  lemma FlushNow(s: State, id: int)
    requires Live(s, id, Reading) && s.workers[id].pending != []
    ensures var steps := [BeginFlush(id)] + FlushSteps(id);
      && Executable(s, steps)
      && var t := Run(s, steps);
         t.committed == LastOffset(s.workers[id]) && t.db.poison == s.db.poison && t.log == s.log && t.kind == s.kind
  {
    FlushRun(Apply(s, BeginFlush(id)), id);
    RunOfOne(s, BeginFlush(id), FlushSteps(id));
  }

  /** After a failed dead-letter write the worker simply reads the next message. */
  lemma ReadPastFailure(s: State, id: int)
    requires Inv(s) && Enabled(s, WritePoison(id, Failed))
    requires s.workers[id].next < |s.log| && Decodable(s.kind, s.log[s.workers[id].next])
    ensures var o := s.workers[id].next - 1; 0 <= o && !Decodable(s.kind, s.log[o])
    ensures var s1 := Apply(s, WritePoison(id, Failed));
      && Enabled(s1, Fetch(id))
      && var s2 := Apply(s1, Fetch(id));
         && Live(s2, id, Reading) && s2.workers[id].pending != [] && LastOffset(s2.workers[id]) == s.workers[id].next
         && s2.log == s.log && s2.kind == s.kind && s2.db == s.db
  {
    assert WorkerOK(s, s.workers[id]);
  }

  /** Such a run exists from the start, for every kind of input and every decodable message. */
  lemma CommittedWithoutRow(kind: Kind, fact: Fact) returns (s: State, steps: seq<Step>)
    requires OfKind(kind, fact)
    ensures Init(s) && s.kind == kind && Executable(s, steps)
    ensures var t := Run(s, steps);
      0 < t.committed < |t.log| && !Decodable(t.kind, t.log[0]) && 0 !in t.db.poison
  {
    s := State(kind, "input", 0, 1, [Garbage, Carries(fact)], -1, EMPTY_DB, map[], {});
    InitInv(s);
    var s1 := Apply(s, Start(0));
    StepKeepsInv(s, Start(0));
    var s2 := Apply(s1, Load(0));
    StepKeepsInv(s1, Load(0));
    var s3 := Apply(s2, Fetch(0));
    StepKeepsInv(s2, Fetch(0));
    FailedPoisonWriteIsCommittedPast(s3, 0);
    var rest := [WritePoison(0, Failed), Fetch(0), BeginFlush(0)] + FlushSteps(0);
    RunOfOne(s2, Fetch(0), rest);
    RunOfOne(s1, Load(0), [Fetch(0)] + rest);
    RunOfOne(s, Start(0), [Load(0)] + ([Fetch(0)] + rest));
    steps := [Start(0)] + ([Load(0)] + ([Fetch(0)] + rest));
  }

  function FlushSteps(id: int): seq<Step> {
    [WriteBatch(id, true), CommitBatch(id, true)]
  }

  lemma FlushRun(s: State, id: int)
    requires Live(s, id, Flushing) && s.workers[id].pending != []
    ensures Executable(s, FlushSteps(id))
    ensures Run(s, FlushSteps(id)).committed == LastOffset(s.workers[id])
    ensures Run(s, FlushSteps(id)).db.poison == s.db.poison
    ensures Run(s, FlushSteps(id)).log == s.log && Run(s, FlushSteps(id)).kind == s.kind
  {
    var t := Apply(s, WriteBatch(id, true));
    RunOfOne(t, CommitBatch(id, true), []);
    RunOfOne(s, WriteBatch(id, true), [CommitBatch(id, true)]);
    assert [CommitBatch(id, true)] + [] == [CommitBatch(id, true)];
    assert [WriteBatch(id, true)] + [CommitBatch(id, true)] == FlushSteps(id);
  }

  lemma RunOfOne(s: State, step: Step, rest: seq<Step>)
    requires Enabled(s, step) && Executable(Apply(s, step), rest)
    ensures Executable(s, [step] + rest) && Run(s, [step] + rest) == Run(Apply(s, step), rest)
  {
    assert ([step] + rest)[1..] == rest;
  }

  /** Every write reached in a run is accepted by the store, so its retry loop never spins on
      a validation error. */
  lemma EveryWriteIsAccepted(s: State, steps: seq<Step>, id: int, acked: bool)
    requires Init(s) && Executable(s, steps) && Enabled(Run(s, steps), WriteBatch(id, acked))
    ensures var t := Run(s, steps); ValidBatch(BatchOf(t.kind, t.inputID, t.partition, t.workers[id]))
  {
    InitInv(s);
    RunKeepsInv(s, steps);
    BatchIsValid(Run(s, steps), Run(s, steps).workers[id]);
  }
}
