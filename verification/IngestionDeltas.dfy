/** What the delta fact table holds after any run: terminal ids strictly increase. */
module IngestionDeltas {
  import opened MarketModel
  import opened FactStore
  import opened Ingestion
  import opened IngestionProofs
  import DeltaGate

  predicate HasTerminal(x: (int, OrderBookDelta)) {
    DeltaGate.DeltaTerminal(x.1).Some?
  }

  function TerminalIn(x: (int, OrderBookDelta)): int
    requires HasTerminal(x)
  {
    DeltaGate.DeltaTerminal(x.1).value
  }

  /** Stored deltas all carry a terminal id and are strictly increasing in it. */
  ghost predicate Rising(ds: seq<(int, OrderBookDelta)>) {
    && (forall i :: 0 <= i < |ds| ==> HasTerminal(ds[i]))
    && (forall i, j :: 0 <= i < j < |ds| ==> TerminalIn(ds[i]) < TerminalIn(ds[j]))
  }

  // ---- any number of workers, regular deltas ----------------------------------------

  lemma {:induction false} ReplayRises(log: seq<Payload>, n: int)
    requires Terminals(log) && 0 <= n <= |log|
    ensures var ds := Replay(DeltaKind, log, n).deltas;
      && Rising(ds)
      && (ds != [] ==> HighWater(DeltaKind, log, n) == Some(TerminalIn(ds[|ds| - 1])))
      && (ds == [] ==> HighWater(DeltaKind, log, n) == None)
    decreases n
  {
    if n > 0 {
      ReplayRises(log, n - 1);
    }
  }

  /** With several workers at once: if every delta has a terminal id and no new maximum repeats
      the event id of the previous one, the stored deltas strictly increase after every run. */
  lemma StoredDeltasRise(s: State, steps: seq<Step>)
    requires Init(s) && s.kind == DeltaKind && Executable(s, steps)
    ensures Run(s, steps).kind == DeltaKind
    ensures Regular(DeltaKind, Run(s, steps).log) ==> Rising(Run(s, steps).db.tables.deltas)
  {
    TablesAreReplay(s, steps);
    KindIsFixed(s, steps);
    var t := Run(s, steps);
    if Regular(DeltaKind, t.log) {
      ReplayRises(t.log, Durable(t.db) + 1);
    }
  }

  lemma KindStays(s: State, step: Step)
    requires Enabled(s, step)
    ensures Apply(s, step).kind == s.kind && s.log <= Apply(s, step).log
  {
  }

  lemma {:induction false} KindIsFixed(s: State, steps: seq<Step>)
    requires Executable(s, steps)
    ensures Run(s, steps).kind == s.kind
    decreases |steps|
  {
    if steps != [] {
      KindIsFixed(Apply(s, steps[0]), steps[1..]);
    }
  }

  // ---- one worker at a time, arbitrary event ids ------------------------------------

  /** A run in which a worker starts only when no other is left: crashes and restarts, but
      no overlap. */
  ghost predicate SoloExecutable(s: State, steps: seq<Step>)
    decreases |steps|
  {
    steps == [] ||
    (&& Enabled(s, steps[0]) && (steps[0].Start? ==> s.workers == map[])
     && SoloExecutable(Apply(s, steps[0]), steps[1..]))
  }

  lemma {:induction false} SoloIsExecutable(s: State, steps: seq<Step>)
    requires SoloExecutable(s, steps)
    ensures Executable(s, steps)
    decreases |steps|
  {
    if steps != [] {
      SoloIsExecutable(Apply(s, steps[0]), steps[1..]);
    }
  }

  /** The deltas of a batch that lie beyond the durable offset. */
  function Fresh(rs: seq<Record>, durable: int): seq<(int, OrderBookDelta)> {
    if rs == [] then []
    else
      var front, r := Fresh(rs[..|rs| - 1], durable), rs[|rs| - 1];
      if r.offset > durable && r.fact.Some? && r.fact.value.DeltaFact? then front + [(r.offset, r.fact.value.delta)]
      else front
  }

  /** The cursor stands at or above everything in `ds`. */
  ghost predicate Covers(c: Option<OrderBookDelta>, ds: seq<(int, OrderBookDelta)>) {
    forall i :: 0 <= i < |ds| ==> HasTerminal(ds[i]) && DeltaGate.AtLeast(c, TerminalIn(ds[i]))
  }

  ghost predicate SoloInv(s: State) {
    && Inv(s) && s.kind == DeltaKind
    && (forall i, j :: i in s.workers && j in s.workers ==> i == j)
    && (Terminals(s.log) ==>
          && Rising(s.db.tables.deltas) && Covers(StoredCursor(s.db), s.db.tables.deltas)
          && (forall id :: id in s.workers && s.workers[id].loaded ==> SoloWorker(s.db, s.workers[id])))
  }

  /** Stored deltas followed by the batch's new ones rise, and the live cursor covers them. */
  ghost predicate SoloWorker(db: Db, w: Worker) {
    var all := db.tables.deltas + Fresh(w.pending, Durable(db));
    Rising(all) && Covers(w.cursor, all)
  }

  lemma {:induction false} FoldAddsFresh(t: Tables, rs: seq<Record>, durable: int)
    requires forall i :: 0 <= i < |rs| ==> rs[i].fact.Some? ==> rs[i].fact.value.DeltaFact?
    ensures FoldRecords(t, rs, durable).deltas == t.deltas + Fresh(rs, durable)
  {
    if rs != [] {
      FoldAddsFresh(t, rs[..|rs| - 1], durable);
    }
  }

  lemma {:induction false} NothingFresh(rs: seq<Record>, durable: int)
    requires forall i :: 0 <= i < |rs| ==> rs[i].offset <= durable
    ensures Fresh(rs, durable) == []
  {
    if rs != [] {
      NothingFresh(rs[..|rs| - 1], durable);
    }
  }

  lemma SoloFetch(s: State, id: int)
    requires SoloInv(s) && Terminals(s.log) && Enabled(s, Fetch(id))
    ensures SoloWorker(s.db, Prepare(s.kind, s.workers[id], s.log[s.workers[id].next]))
  {
    var w := s.workers[id];
    var v := Prepare(s.kind, w, s.log[w.next]);
    var all := s.db.tables.deltas + Fresh(w.pending, Durable(s.db));
    if v.pending != w.pending {
      assert v.pending[..|v.pending| - 1] == w.pending;
      var r := v.pending[|v.pending| - 1];
      if r.fact.Some? {
        if r.offset > Durable(s.db) {
          assert s.db.tables.deltas + Fresh(v.pending, Durable(s.db)) == all + [(r.offset, r.fact.value.delta)];
        } else {
          assert Covers(v.cursor, (all + [(r.offset, r.fact.value.delta)])[..|all|]);
          assert (all + [(r.offset, r.fact.value.delta)])[..|all|] == all;
        }
      }
    }
  }

  /** A batch with something new appends exactly its fresh deltas. */
  lemma WriteAppendsFresh(s: State, w: Worker)
    requires Inv(s) && s.kind == DeltaKind && WorkerOK(s, w) && w.pending != []
    ensures WriteNew(s.db, BatchOf(s.kind, s.inputID, s.partition, w)).tables.deltas ==
            s.db.tables.deltas + Fresh(w.pending, Durable(s.db))
    ensures Fresh(w.pending, LastOffset(w)) == []
  {
    forall i | 0 <= i < |w.pending|
      ensures w.pending[i].offset <= LastOffset(w)
      ensures w.pending[i].fact.Some? ==> w.pending[i].fact.value.DeltaFact?
    {
      assert RecordOK(s, w, i) && RecordOK(s, w, |w.pending| - 1);
    }
    WriteNewIsFold(s, w);
    FoldAddsFresh(s.db.tables, w.pending, Durable(s.db));
    NothingFresh(w.pending, LastOffset(w));
  }

  lemma SoloWrite(s: State, id: int, acked: bool)
    requires SoloInv(s) && Terminals(s.log) && Enabled(s, WriteBatch(id, acked))
    ensures var t := Apply(s, WriteBatch(id, acked));
      && Rising(t.db.tables.deltas) && Covers(StoredCursor(t.db), t.db.tables.deltas)
      && SoloWorker(t.db, t.workers[id])
  {
    var w := s.workers[id];
    var t := Apply(s, WriteBatch(id, acked));
    WriteShape(s, id, acked);
    assert t.workers[id].pending == w.pending && t.workers[id].cursor == w.cursor;
    assert SoloWorker(s.db, w);
    if LastOffset(w) > Durable(s.db) {
      WriteAppendsFresh(s, w);
      var all := s.db.tables.deltas + Fresh(w.pending, Durable(s.db));
      assert t.db.tables.deltas == all;
      assert all + Fresh(w.pending, Durable(t.db)) == all;
    }
  }

  /** A worker without a batch needs only the stored deltas to be covered. */
  lemma SoloEmpty(db: Db, w: Worker)
    requires w.pending == [] && Rising(db.tables.deltas) && Covers(w.cursor, db.tables.deltas)
    ensures SoloWorker(db, w)
  {
    assert db.tables.deltas + Fresh([], Durable(db)) == db.tables.deltas;
  }

  lemma SoloCommit(db: Db, w: Worker, v: Worker)
    requires SoloWorker(db, w) && Rising(db.tables.deltas) && v.pending == [] && v.cursor == w.cursor
    ensures SoloWorker(db, v)
  {
    var all := db.tables.deltas + Fresh(w.pending, Durable(db));
    assert forall i :: 0 <= i < |db.tables.deltas| ==> all[i] == db.tables.deltas[i];
    SoloEmpty(db, v);
  }

  lemma SoloStep(s: State, step: Step)
    requires SoloInv(s) && Enabled(s, step) && (step.Start? ==> s.workers == map[])
    ensures SoloInv(Apply(s, step))
  {
    StepKeepsInv(s, step);
    var t := Apply(s, step);
    SoloFrame(s, step);
    if Terminals(t.log) {
      assert Terminals(s.log) by {
        assert forall i :: 0 <= i < |s.log| ==> s.log[i] == t.log[i];
      }
      match step {
        case WriteBatch(id, acked) => SoloWrite(s, id, acked);
        case Fetch(id) => SoloFetch(s, id);
        case Load(id) => SoloEmpty(t.db, t.workers[id]);
        case CommitBatch(id, acked) =>
          if acked {
            SoloCommit(s.db, s.workers[id], t.workers[id]);
          }
        case _ =>
      }
    }
  }

  lemma SoloFrame(s: State, step: Step)
    requires Enabled(s, step) && (step.Start? ==> s.workers == map[])
    requires forall i, j :: i in s.workers && j in s.workers ==> i == j
    ensures var t := Apply(s, step);
      && t.kind == s.kind && s.log <= t.log
      && (forall i, j :: i in t.workers && j in t.workers ==> i == j)
      && (!step.WriteBatch? ==> t.db.tables == s.db.tables && t.db.progress == s.db.progress)
  {
  }

  lemma {:induction false} SoloRun(s: State, steps: seq<Step>)
    requires SoloInv(s) && SoloExecutable(s, steps)
    ensures Executable(s, steps) && SoloInv(Run(s, steps))
    decreases |steps|
  {
    if steps != [] {
      SoloStep(s, steps[0]);
      SoloRun(Apply(s, steps[0]), steps[1..]);
    }
  }

  /** Across all crashes, restarts and replays of one worker at a time, stored deltas strictly
      increase in their terminal id whenever every delta carries one; event ids may repeat
      in any way. */
  lemma SoloStoredDeltasRise(s: State, steps: seq<Step>)
    requires Init(s) && s.kind == DeltaKind && SoloExecutable(s, steps)
    ensures Executable(s, steps)
    ensures Terminals(Run(s, steps).log) ==> Rising(Run(s, steps).db.tables.deltas)
  {
    InitInv(s);
    SoloRun(s, steps);
  }
}
