/** What is in the tables after any run, in terms of the messages alone. */
module StoredFacts {
  import opened MarketModel
  import opened FactStore
  import opened Ingestion
  import opened IngestionProofs
  import opened FactLaws
  import IngestionDeltas
  import KlineGuard

  // ---- any number of workers --------------------------------------------------------

  /** After any run of any number of workers, the trade table holds exactly the trades up to the durable
      offset whose exchange id is empty or new, each under its own offset. */
  lemma TradesAfterAnyRun(s: State, steps: seq<Step>)
    requires Init(s) && s.kind == TradeKind && Executable(s, steps)
    ensures var t := Run(s, steps);
      Durable(t.db) < |t.log| && HoldsTrades(t.db.tables.trades, t.log, Durable(t.db) + 1)
  {
    TablesAreReplay(s, steps);
    IngestionDeltas.KindIsFixed(s, steps);
    var t := Run(s, steps);
    ReplayOfTrades(t.log, Durable(t.db) + 1);
  }

  /** After any run, the row of a candlestick is the closed form over its messages up to the durable
      offset, in the order of the log. */
  lemma KlineAfterAnyRun(s: State, steps: seq<Step>, key: KlineKey) returns (w: nat)
    requires Init(s) && s.kind == KlineKind && Executable(s, steps)
    ensures Durable(Run(s, steps).db) < |Run(s, steps).log|
    ensures var t := Run(s, steps);
      var ks := KlineGuard.WithKey(KlinesOf(t.log, Durable(t.db) + 1), key);
      var row := KlineGuard.Lookup(t.db.tables.klines, key);
      if ks == [] then row == None
      else
        && w < |ks| && row == Some(ks[w])
        && if exists i: nat :: KlineGuard.Enters(ks, i) then KlineGuard.FirstLargestClosed(ks, w)
           else KlineGuard.LastLargestOpen(ks, w)
  {
    TablesAreReplay(s, steps);
    IngestionDeltas.KindIsFixed(s, steps);
    var t := Run(s, steps);
    w := ReplayedKline(t.log, Durable(t.db) + 1, key);
  }

  /** After any run on a regular log, the delta table holds exactly the deltas up to the durable offset
      whose last update id is above every earlier one; or the same for sequences. */
  lemma DeltasAfterAnyRun(s: State, steps: seq<Step>)
    requires Init(s) && s.kind == DeltaKind && Executable(s, steps) && NoTwins(Run(s, steps).log)
    ensures Durable(Run(s, steps).db) < |Run(s, steps).log|
    ensures var t := Run(s, steps);
      && (AllHaveUpdateID(t.log) ==> HoldsPeaks(t.db.tables.deltas, t.log, UpdateID, Durable(t.db) + 1))
      && (OnlySequences(t.log) ==> HoldsPeaks(t.db.tables.deltas, t.log, SequenceOf, Durable(t.db) + 1))
  {
    TablesAreReplay(s, steps);
    IngestionDeltas.KindIsFixed(s, steps);
    var t := Run(s, steps);
    FieldsNumber(t.log);
    ReplayOfDeltasByField(t.log, Durable(t.db) + 1);
  }

  // ---- one worker at a time ---------------------------------------------------------

  type Rows = seq<(int, OrderBookDelta)>

  ghost predicate RisesByUpdateID(rows: Rows) {
    && (forall i :: 0 <= i < |rows| ==> rows[i].1.lastUpdateID.Some?)
    && (forall i, j :: 0 <= i < j < |rows| ==> rows[i].1.lastUpdateID.value < rows[j].1.lastUpdateID.value)
  }

  ghost predicate RisesBySequence(rows: Rows) {
    && (forall i :: 0 <= i < |rows| ==> rows[i].1.sequence.Some?)
    && (forall i, j :: 0 <= i < j < |rows| ==> rows[i].1.sequence.value < rows[j].1.sequence.value)
  }

  /** Across all crashes, restarts and replays of one worker at a time: where every delta has a last update
      id, the stored ones strictly increase whatever the sequences; where none has but all have sequences,
      the stored sequences strictly increase. */
  lemma SoloStoredRisesByField(s: State, steps: seq<Step>)
    requires Init(s) && s.kind == DeltaKind && IngestionDeltas.SoloExecutable(s, steps)
    ensures Executable(s, steps)
    ensures AllHaveUpdateID(Run(s, steps).log) ==> RisesByUpdateID(Run(s, steps).db.tables.deltas)
    ensures OnlySequences(Run(s, steps).log) ==> RisesBySequence(Run(s, steps).db.tables.deltas)
  {
    IngestionDeltas.SoloStoredDeltasRise(s, steps);
    InitInv(s);
    RunKeepsOrigin(s, steps);
    var t := Run(s, steps);
    RisingByField(t.log, t.db.tables.deltas);
  }

  /** Every stored delta is the message at its offset. */
  ghost predicate FromLog(rows: Rows, log: seq<Payload>) {
    forall i :: 0 <= i < |rows| ==>
      0 <= rows[i].0 < |log| && log[rows[i].0] == Carries(DeltaFact(rows[i].1))
  }

  lemma RisingByField(log: seq<Payload>, rows: Rows)
    requires FromLog(rows, log)
    ensures AllHaveUpdateID(log) && (Terminals(log) ==> IngestionDeltas.Rising(rows)) ==> RisesByUpdateID(rows)
    ensures OnlySequences(log) && (Terminals(log) ==> IngestionDeltas.Rising(rows)) ==> RisesBySequence(rows)
  {
    FieldsNumber(log);
    forall i | 0 <= i < |rows|
      ensures IsDelta(log[rows[i].0]) && log[rows[i].0].fact.delta == rows[i].1
    {
    }
    if AllHaveUpdateID(log) && IngestionDeltas.Rising(rows) {
      forall i, j | 0 <= i < j < |rows|
        ensures rows[i].1.lastUpdateID.value < rows[j].1.lastUpdateID.value
      {
        assert IngestionDeltas.TerminalIn(rows[i]) < IngestionDeltas.TerminalIn(rows[j]);
      }
    }
    if OnlySequences(log) && IngestionDeltas.Rising(rows) {
      forall i, j | 0 <= i < j < |rows|
        ensures rows[i].1.sequence.value < rows[j].1.sequence.value
      {
        assert IngestionDeltas.TerminalIn(rows[i]) < IngestionDeltas.TerminalIn(rows[j]);
      }
    }
  }

  lemma {:induction false} FoldFromLog(t: Tables, rs: seq<Record>, durable: int, log: seq<Payload>)
    requires FromLog(t.deltas, log)
    requires forall i :: 0 <= i < |rs| && rs[i].fact.Some? ==>
      0 <= rs[i].offset < |log| && log[rs[i].offset] == Carries(rs[i].fact.value)
    ensures FromLog(FoldRecords(t, rs, durable).deltas, log)
  {
    if rs != [] {
      var front := rs[..|rs| - 1];
      assert forall i :: 0 <= i < |front| ==> front[i] == rs[i];
      FoldFromLog(t, front, durable, log);
    }
  }

  lemma StepKeepsOrigin(s: State, step: Step)
    requires Inv(s) && Enabled(s, step) && FromLog(s.db.tables.deltas, s.log)
    ensures FromLog(Apply(s, step).db.tables.deltas, Apply(s, step).log)
  {
    if step.WriteBatch? {
      var w := s.workers[step.id];
      WriteShape(s, step.id, step.acked);
      forall i | 0 <= i < |w.pending| && w.pending[i].fact.Some?
        ensures 0 <= w.pending[i].offset < |s.log| && s.log[w.pending[i].offset] == Carries(w.pending[i].fact.value)
      {
        assert RecordOK(s, w, i);
      }
      WriteNewIsFold(s, w);
      FoldFromLog(s.db.tables, w.pending, Durable(s.db), s.log);
    } else {
      OtherStepKeepsRows(s, step);
    }
  }

  lemma OtherStepKeepsRows(s: State, step: Step)
    requires Enabled(s, step) && !step.WriteBatch?
    ensures Apply(s, step).db.tables == s.db.tables && s.log <= Apply(s, step).log
  {
  }

  /** Over every run, of any number of workers: every stored delta is the message at its offset. */
  lemma {:induction false} RunKeepsOrigin(s: State, steps: seq<Step>)
    requires Inv(s) && Executable(s, steps) && FromLog(s.db.tables.deltas, s.log)
    ensures FromLog(Run(s, steps).db.tables.deltas, Run(s, steps).log)
    decreases |steps|
  {
    if steps != [] {
      StepKeepsInv(s, steps[0]);
      StepKeepsOrigin(s, steps[0]);
      RunKeepsOrigin(Apply(s, steps[0]), steps[1..]);
    }
  }
}
