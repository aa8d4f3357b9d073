/** A run of two overlapping workers whose stored deltas go down: every delta carries a
    terminal id, but new maxima repeat event ids. */
module IngestionOverlap {
  import opened MarketModel
  import opened FactStore
  import opened Ingestion
  import opened IngestionProofs
  import opened IngestionDeltas
  import opened IngestionExact

  function D(id: string, terminal: int): OrderBookDelta {
    OrderBookDelta(id, None, Some(terminal), None, None, [], [])
  }

  function Msg(id: string, terminal: int): Payload {
    Carries(DeltaFact(D(id, terminal)))
  }

  function Kept(offset: int, id: string, terminal: int): Record {
    Record(offset, Some(DeltaFact(D(id, terminal))))
  }

  const LOG: seq<Payload> := [Msg("q", 3), Msg("q", 50), Msg("e", 5), Msg("e", 100), Msg("f", 6)]

  /** Worker 1 owns the input first, worker 2 starts while worker 1 is stalled. */
  function At(committed: int, db: Db, workers: map<int, Worker>): State {
    State(DeltaKind, "input", 0, 10, LOG, committed, db, workers, {})
  }

  function Stored(last: int, c: OrderBookDelta, deltas: seq<(int, OrderBookDelta)>): Db {
    Db(Tables(map[], map[], deltas), Some(Progress("input", 0, last, c.rawEventID, c.lastUpdateID, c.sequence)), {})
  }

  const DB_A := Stored(2, D("e", 5), [(0, D("q", 3)), (2, D("e", 5))])
  const DB_B := Stored(3, D("e", 100), [(0, D("q", 3)), (2, D("e", 5)), (3, D("e", 100))])
  const DB_C := Stored(4, D("f", 6), [(0, D("q", 3)), (2, D("e", 5)), (3, D("e", 100)), (4, D("f", 6))])

  /** Worker 1 has written offsets 0..2 and stalls before its commit. */
  const A_STALLED := Worker(3, true, -1, 0, Some(D("e", 5)), [Kept(0, "q", 3), Record(1, None), Kept(2, "e", 5)],
                            false, BatchWritten)

  /** Worker 2 has flushed the replayed offset 0, read on, and written up to offset 3. */
  const B_WRITTEN :=
    Worker(4, true, 0, 3, Some(D("e", 100)), [Kept(1, "q", 50), Record(2, None), Kept(3, "e", 100)], false,
           BatchWritten)

  lemma ReadOn(t: State, id: int, v: Worker)
    requires Reachable(t) && Enabled(t, Fetch(id)) && v == Prepare(t.kind, t.workers[id], t.log[t.workers[id].next])
    ensures Reachable(With(t, id, v))
  {
    ReachStep(t, Fetch(id));
  }

  /** A batch that goes beyond the durable offset, with its effect given as a fold. */
  lemma WriteOut(t: State, id: int, db: Db)
    requires Reachable(t) && Live(t, id, Reading) && t.workers[id].pending != []
    requires LastOffset(t.workers[id]) > Durable(t.db)
    requires db == Db(FoldRecords(t.db.tables, t.workers[id].pending, Durable(t.db)),
                      Some(ProgressFor(t.kind, t.inputID, t.partition, LastOffset(t.workers[id]),
                                       t.workers[id].cursor)), t.db.poison)
    ensures Reachable(With(t.(db := db), id, t.workers[id].(phase := BatchWritten)))
  {
    var w := t.workers[id];
    StartFlush(t, id);
    var u := With(t, id, w.(phase := Flushing));
    FlushOut(u, id);
    assert With(u.(db := db), id, w.(phase := BatchWritten)) == With(t.(db := db), id, w.(phase := BatchWritten));
  }

  lemma StartFlush(t: State, id: int)
    requires Reachable(t) && Live(t, id, Reading) && t.workers[id].pending != []
    ensures Reachable(With(t, id, t.workers[id].(phase := Flushing)))
  {
    ReachStep(t, BeginFlush(id));
  }

  lemma FlushOut(u: State, id: int)
    requires Reachable(u) && Live(u, id, Flushing) && u.workers[id].pending != []
    requires LastOffset(u.workers[id]) > Durable(u.db)
    ensures var w := u.workers[id];
      var db := Db(FoldRecords(u.db.tables, w.pending, Durable(u.db)),
                   Some(ProgressFor(u.kind, u.inputID, u.partition, LastOffset(w), w.cursor)), u.db.poison);
      Reachable(With(u.(db := db), id, w.(phase := BatchWritten)))
  {
    ReachStep(u, WriteBatch(id, true));
    ReachableKeepsInv(u);
    WriteShape(u, id, true);
    WriteNewIsFold(u, u.workers[id]);
  }

  lemma FoldStep(t: Tables, rs: seq<Record>, r: Record, durable: int)
    ensures FoldRecords(t, rs + [r], durable) ==
      if r.offset > durable && r.fact.Some? then ApplyFact(FoldRecords(t, rs, durable), r.offset, r.fact.value)
      else FoldRecords(t, rs, durable)
  {
    assert (rs + [r])[..|rs|] == rs;
  }

  /** Three records, applied one after the other. */
  lemma FoldThree(t: Tables, a: Record, b: Record, c: Record, durable: int)
    ensures var one := if a.offset > durable && a.fact.Some? then ApplyFact(t, a.offset, a.fact.value) else t;
      var two := if b.offset > durable && b.fact.Some? then ApplyFact(one, b.offset, b.fact.value) else one;
      FoldRecords(t, [a, b, c], durable) ==
      if c.offset > durable && c.fact.Some? then ApplyFact(two, c.offset, c.fact.value) else two
  {
    FoldStep(t, [], a, durable);
    FoldStep(t, [a], b, durable);
    FoldStep(t, [a, b], c, durable);
    assert [] + [a] == [a] && [a] + [b] == [a, b] && [a, b] + [c] == [a, b, c];
  }

  const A_READ := A_STALLED.(phase := Reading)

  lemma FirstOwnerStarts()
    ensures Reachable(At(-1, EMPTY_DB, map[1 := Worker(0, true, -1, 0, None, [], false, Reading)]))
  {
    var s := At(-1, EMPTY_DB, map[]);
    assert Reaches(s, [], s);
    ReachStep(s, Start(1));
    var s1 := At(-1, EMPTY_DB, map[1 := NewWorker(0)]);
    assert Apply(s, Start(1)) == s1;
    ReachStep(s1, Load(1));
    assert Apply(s1, Load(1)) == At(-1, EMPTY_DB, map[1 := Worker(0, true, -1, 0, None, [], false, Reading)]);
  }

  lemma FirstOwnerReads()
    ensures Reachable(At(-1, EMPTY_DB, map[1 := A_READ]))
  {
    FirstOwnerStarts();
    var w := Worker(0, true, -1, 0, None, [], false, Reading);
    var w1 := Worker(1, true, -1, 0, Some(D("q", 3)), [Kept(0, "q", 3)], false, Reading);
    var w2 := Worker(2, true, -1, 0, Some(D("q", 3)), [Kept(0, "q", 3), Record(1, None)], false, Reading);
    var s2 := At(-1, EMPTY_DB, map[1 := w]);
    ReadOn(s2, 1, w1);
    var s3 := At(-1, EMPTY_DB, map[1 := w1]);
    assert With(s2, 1, w1) == s3;
    ReadOn(s3, 1, w2);
    var s4 := At(-1, EMPTY_DB, map[1 := w2]);
    assert With(s3, 1, w2) == s4;
    ReadOn(s4, 1, A_READ);
    assert With(s4, 1, A_READ) == At(-1, EMPTY_DB, map[1 := A_READ]);
  }

  lemma FirstOwnerWrites()
    ensures Reachable(At(-1, DB_A, map[1 := A_STALLED]))
  {
    FirstOwnerReads();
    var s := At(-1, EMPTY_DB, map[1 := A_READ]);
    FoldThree(EMPTY_TABLES, Kept(0, "q", 3), Record(1, None), Kept(2, "e", 5), -1);
    WriteOut(s, 1, DB_A);
    assert With(s.(db := DB_A), 1, A_STALLED) == At(-1, DB_A, map[1 := A_STALLED]);
  }

  /** Worker 2 loads progress, replays offset 0 and flushes it: its cached durable offset falls
      from 2 to 0 while the database stays at 2. */
  lemma SecondOwnerReplays()
    ensures Reachable(At(0, DB_A, map[1 := A_STALLED, 2 := Worker(1, true, 0, 3, Some(D("e", 5)), [], false, Reading)]))
  {
    FirstOwnerWrites();
    var s := At(-1, DB_A, map[1 := A_STALLED]);
    ReachStep(s, Start(2));
    var s1 := At(-1, DB_A, map[1 := A_STALLED, 2 := NewWorker(0)]);
    assert Apply(s, Start(2)) == s1;
    ReachStep(s1, Load(2));
    var w := Worker(0, true, 2, 3, Some(D("e", 5)), [], false, Reading);
    var s2 := At(-1, DB_A, map[1 := A_STALLED, 2 := w]);
    assert Apply(s1, Load(2)) == s2;
    var w1 := Worker(1, true, 2, 3, Some(D("e", 5)), [Record(0, None)], false, Reading);
    ReadOn(s2, 2, w1);
    var s3 := At(-1, DB_A, map[1 := A_STALLED, 2 := w1]);
    assert With(s2, 2, w1) == s3;
    ReplayFlush(s3, w1);
  }

  lemma ReplayFlush(s: State, w: Worker)
    requires w == Worker(1, true, 2, 3, Some(D("e", 5)), [Record(0, None)], false, Reading)
    requires s == At(-1, DB_A, map[1 := A_STALLED, 2 := w]) && Reachable(s)
    ensures Reachable(At(0, DB_A, map[1 := A_STALLED, 2 := Worker(1, true, 0, 3, Some(D("e", 5)), [], false, Reading)]))
  {
    ReachStep(s, BeginFlush(2));
    var s1 := At(-1, DB_A, map[1 := A_STALLED, 2 := w.(phase := Flushing)]);
    assert Apply(s, BeginFlush(2)) == s1;
    ReachableKeepsInv(s1);
    WriteShape(s1, 2, true);
    ReachStep(s1, WriteBatch(2, true));
    var s2 := At(-1, DB_A, map[1 := A_STALLED, 2 := w.(phase := BatchWritten)]);
    assert Apply(s1, WriteBatch(2, true)) == s2;
    ReachStep(s2, CommitBatch(2, true));
    assert Apply(s2, CommitBatch(2, true)) ==
      At(0, DB_A, map[1 := A_STALLED, 2 := Worker(1, true, 0, 3, Some(D("e", 5)), [], false, Reading)]);
  }

  /** It reads offset 1 again, admits what worker 1 had dropped, and goes on from there. */
  lemma SecondOwnerWrites()
    ensures Reachable(At(0, DB_B, map[1 := A_STALLED, 2 := B_WRITTEN]))
  {
    SecondOwnerReplays();
    var w := Worker(1, true, 0, 3, Some(D("e", 5)), [], false, Reading);
    var w1 := Worker(2, true, 0, 3, Some(D("q", 50)), [Kept(1, "q", 50)], false, Reading);
    var w2 := Worker(3, true, 0, 3, Some(D("q", 50)), [Kept(1, "q", 50), Record(2, None)], false, Reading);
    var w3 := B_WRITTEN.(phase := Reading);
    var s := At(0, DB_A, map[1 := A_STALLED, 2 := w]);
    ReadOn(s, 2, w1);
    var s1 := At(0, DB_A, map[1 := A_STALLED, 2 := w1]);
    assert With(s, 2, w1) == s1;
    ReadOn(s1, 2, w2);
    var s2 := At(0, DB_A, map[1 := A_STALLED, 2 := w2]);
    assert With(s1, 2, w2) == s2;
    ReadOn(s2, 2, w3);
    var s3 := At(0, DB_A, map[1 := A_STALLED, 2 := w3]);
    assert With(s2, 2, w3) == s3;
    FoldThree(DB_A.tables, Kept(1, "q", 50), Record(2, None), Kept(3, "e", 100), 2);
    WriteOut(s3, 2, DB_B);
    assert With(s3.(db := DB_B), 2, B_WRITTEN) == At(0, DB_B, map[1 := A_STALLED, 2 := B_WRITTEN]);
  }

  /** Worker 1 wakes up, commits, refuses (e, 100) by identity, and stores (f, 6). */
  lemma FirstOwnerResumes()
    ensures exists t: State :: Reachable(t) && t.log == LOG && t.db == DB_C
  {
    SecondOwnerWrites();
    var s := At(0, DB_B, map[1 := A_STALLED, 2 := B_WRITTEN]);
    ReachStep(s, CommitBatch(1, true));
    var w := Worker(3, true, 2, 0, Some(D("e", 5)), [], false, Reading);
    var s1 := At(2, DB_B, map[1 := w, 2 := B_WRITTEN]);
    assert Apply(s, CommitBatch(1, true)) == s1;
    var w1 := Worker(4, true, 2, 0, Some(D("e", 5)), [Record(3, None)], false, Reading);
    var w2 := Worker(5, true, 2, 0, Some(D("f", 6)), [Record(3, None), Kept(4, "f", 6)], false, Reading);
    ReadOn(s1, 1, w1);
    var s2 := At(2, DB_B, map[1 := w1, 2 := B_WRITTEN]);
    assert With(s1, 1, w1) == s2;
    ReadOn(s2, 1, w2);
    var s3 := At(2, DB_B, map[1 := w2, 2 := B_WRITTEN]);
    assert With(s2, 1, w2) == s3;
    FoldStep(DB_B.tables, [], Record(3, None), 3);
    FoldStep(DB_B.tables, [Record(3, None)], Kept(4, "f", 6), 3);
    assert [] + [Record(3, None)] == [Record(3, None)] && [Record(3, None)] + [Kept(4, "f", 6)] == w2.pending;
    WriteOut(s3, 1, DB_C);
    var t := With(s3.(db := DB_C), 1, w2.(phase := BatchWritten));
    assert Reachable(t) && t.log == LOG && t.db == DB_C;
  }

  /** Overlapping workers can store a delta below one already stored, although every delta
      carries a terminal id: terminal ids alone are not enough. */
  lemma OverlapCanBreakRising()
    ensures Terminals(LOG)
    ensures exists t: State :: Reachable(t) && t.log == LOG && !Rising(t.db.tables.deltas)
  {
    FirstOwnerResumes();
    var t: State :| Reachable(t) && t.log == LOG && t.db == DB_C;
    var ds := DB_C.tables.deltas;
    assert HasTerminal(ds[2]) && HasTerminal(ds[3]) && TerminalIn(ds[2]) == 100 && TerminalIn(ds[3]) == 6;
    assert !Rising(t.db.tables.deltas);
  }
}
