/** The ingestion and commit protocol on one input partition, as a step machine: any number
    of input workers (a stalled former owner included), one database, one Kafka partition.
    Every database transaction, Kafka commit and fetch is one atomic step; a worker can
    disappear between any two of them. */
module Ingestion {
  import opened MarketModel
  import opened FactStore
  import DeltaGate
  import KlineGuard

  datatype Kind = TradeKind | KlineKind | DeltaKind

  datatype Fact = TradeFact(trade: Trade) | KlineFact(kline: Kline) | DeltaFact(delta: OrderBookDelta)

  /** A Kafka value: either something that decodes and validates to a fact, or garbage. */
  datatype Payload = Garbage | Carries(fact: Fact)

  predicate OfKind(kind: Kind, fact: Fact) {
    match kind
    case TradeKind => fact.TradeFact?
    case KlineKind => fact.KlineFact?
    case DeltaKind => fact.DeltaFact?
  }

  /** Decode plus validate for an input of this kind. */
  predicate Decodable(kind: Kind, p: Payload) {
    p.Carries? && OfKind(kind, p.fact)
  }

  /** A batched message; `fact` is absent for a replayed message and for a delta that the
      monotonicity gate kept out. */
  datatype Record = Record(offset: int, fact: Option<Fact>)

  datatype Phase =
    | Reading
    | Flushing
    | BatchWritten
    | PoisonWritten(offset: int)

  /** An input worker's volatile state. `next` is the Kafka read position, `cached` the
      worker's copy of the durable offset, `horizon` the number of offsets that were durable
      when progress was loaded, `bad` an undecodable message in hand. */
  datatype Worker = Worker(
    next: int,
    loaded: bool,
    cached: int,
    horizon: int,
    cursor: Option<OrderBookDelta>,
    pending: seq<Record>,
    bad: bool,
    phase: Phase)

  /** `committed` is the last committed Kafka offset (-1 for none). `lost` collects the
      offsets of undecodable messages whose dead-letter write failed. */
  datatype State = State(
    kind: Kind,
    inputID: string,
    partition: int,
    batchSize: int,
    log: seq<Payload>,
    committed: int,
    db: Db,
    workers: map<int, Worker>,
    lost: set<int>)

  datatype PoisonOutcome = Stored | StoredButErrored | Failed

  datatype Step =
    | Produce(payload: Payload)
    | Start(id: int)
    | Exit(id: int)
    | Load(id: int)
    | Fetch(id: int)
    | BeginFlush(id: int)
    | WriteBatch(id: int, acked: bool)
    | CommitBatch(id: int, acked: bool)
    | Reflush(id: int)
    | WritePoison(id: int, outcome: PoisonOutcome)
    | CommitPoison(id: int, done: bool)

  // ---- what a worker computes -------------------------------------------------------

  function NewWorker(next: int): Worker {
    Worker(next, false, -1, 0, None, [], false, Reading)
  }

  /** The delta cursor kept in the progress row. */
  function CursorOf(p: Progress): OrderBookDelta {
    OrderBookDelta(p.lastRawEventID, None, p.lastUpdateID, None, p.lastSequence, [], [])
  }

  /** `ensureProgress`: copy the durable offset, and for deltas the cursor. */
  function LoadProgress(kind: Kind, w: Worker, progress: Option<Progress>): Worker {
    if progress.None? then w.(loaded := true, cached := -1, horizon := 0)
    else
      w.(loaded := true, cached := progress.value.durableOffset, horizon := progress.value.durableOffset + 1,
         cursor := if kind.DeltaKind? then Some(CursorOf(progress.value)) else w.cursor)
  }

  /** `prepare` on the message at the read position. */
  function Prepare(kind: Kind, w: Worker, p: Payload): Worker {
    var at := w.(next := w.next + 1);
    if w.next <= w.cached then at.(pending := w.pending + [Record(w.next, None)])
    else if !Decodable(kind, p) then at.(bad := true)
    else if kind.DeltaKind? && !DeltaGate.CheckDeltaContinuity(w.cursor, p.fact.delta) then
      at.(pending := w.pending + [Record(w.next, None)])
    else
      at.(pending := w.pending + [Record(w.next, Some(p.fact))],
          cursor := if kind.DeltaKind? then Some(p.fact.delta) else w.cursor)
  }

  function TradeRows(inputID: string, partition: int, rs: seq<Record>): seq<Row<Trade>> {
    if rs == [] then []
    else
      var front, r := TradeRows(inputID, partition, rs[..|rs| - 1]), rs[|rs| - 1];
      if r.fact.Some? && r.fact.value.TradeFact?
      then front + [Row(inputID, partition, r.offset, r.fact.value.trade)] else front
  }

  function KlineRows(inputID: string, partition: int, rs: seq<Record>): seq<Row<Kline>> {
    if rs == [] then []
    else
      var front, r := KlineRows(inputID, partition, rs[..|rs| - 1]), rs[|rs| - 1];
      if r.fact.Some? && r.fact.value.KlineFact?
      then front + [Row(inputID, partition, r.offset, r.fact.value.kline)] else front
  }

  function DeltaRows(inputID: string, partition: int, rs: seq<Record>): seq<Row<OrderBookDelta>> {
    if rs == [] then []
    else
      var front, r := DeltaRows(inputID, partition, rs[..|rs| - 1]), rs[|rs| - 1];
      if r.fact.Some? && r.fact.value.DeltaFact?
      then front + [Row(inputID, partition, r.offset, r.fact.value.delta)] else front
  }

  function ProgressFor(kind: Kind, inputID: string, partition: int, last: int,
                       cursor: Option<OrderBookDelta>): Progress {
    if kind.DeltaKind? && cursor.Some? then
      Progress(inputID, partition, last, cursor.value.rawEventID, cursor.value.lastUpdateID, cursor.value.sequence)
    else
      Progress(inputID, partition, last, "", None, None)
  }

  /** The batch `flushBatch` hands to the store. */
  function BatchOf(kind: Kind, inputID: string, partition: int, w: Worker): FactBatch
    requires w.pending != []
  {
    FactBatch(
      TradeRows(inputID, partition, w.pending),
      KlineRows(inputID, partition, w.pending),
      DeltaRows(inputID, partition, w.pending),
      ProgressFor(kind, inputID, partition, LastOffset(w), w.cursor))
  }

  function LastOffset(w: Worker): int
    requires w.pending != []
  {
    w.pending[|w.pending| - 1].offset
  }

  // ---- steps ------------------------------------------------------------------------

  predicate Live(s: State, id: int, phase: Phase) {
    id in s.workers && s.workers[id].loaded && s.workers[id].phase == phase
  }

  predicate Enabled(s: State, step: Step) {
    match step
    case Produce(_) => true
    case Start(id) => id !in s.workers
    case Exit(id) => id in s.workers
    case Load(id) => id in s.workers && !s.workers[id].loaded
    case Fetch(id) =>
      && Live(s, id, Reading) && !s.workers[id].bad
      && |s.workers[id].pending| < s.batchSize && 0 <= s.workers[id].next < |s.log|
    case BeginFlush(id) => Live(s, id, Reading) && s.workers[id].pending != []
    case WriteBatch(id, _) => Live(s, id, Flushing) && s.workers[id].pending != []
    case CommitBatch(id, _) => Live(s, id, BatchWritten) && s.workers[id].pending != []
    case Reflush(id) => Live(s, id, BatchWritten)
    case WritePoison(id, _) => Live(s, id, Reading) && s.workers[id].bad && s.workers[id].pending == []
    case CommitPoison(id, _) => id in s.workers && s.workers[id].loaded && s.workers[id].phase.PoisonWritten?
  }

  function With(s: State, id: int, w: Worker): State {
    s.(workers := s.workers[id := w])
  }

  ghost function Apply(s: State, step: Step): State
    requires Enabled(s, step)
  {
    match step
    case Produce(p) => s.(log := s.log + [p])
    case Start(id) => With(s, id, NewWorker(s.committed + 1))
    case Exit(id) => s.(workers := s.workers - {id})
    case Load(id) => With(s, id, LoadProgress(s.kind, s.workers[id], s.db.progress))
    case Fetch(id) => With(s, id, Prepare(s.kind, s.workers[id], s.log[s.workers[id].next]))
    case BeginFlush(id) => With(s, id, s.workers[id].(phase := Flushing))
    case WriteBatch(id, acked) =>
      var w := s.workers[id];
      With(s.(db := Write(s.db, BatchOf(s.kind, s.inputID, s.partition, w))),
           id, if acked then w.(phase := BatchWritten) else w)
    case CommitBatch(id, acked) =>
      var w := s.workers[id];
      With(s.(committed := LastOffset(w)),
           id, if acked then w.(phase := Reading, pending := [], cached := LastOffset(w)) else w)
    case Reflush(id) => With(s, id, s.workers[id].(phase := Flushing))
    case WritePoison(id, outcome) =>
      var w := s.workers[id];
      var o := w.next - 1;
      match outcome {
        case Stored =>
          With(s.(db := s.db.(poison := s.db.poison + {o})), id, w.(bad := false, phase := PoisonWritten(o)))
        case StoredButErrored =>
          With(s.(db := s.db.(poison := s.db.poison + {o})), id, w.(bad := false))
        case Failed =>
          With(s.(lost := s.lost + {o}), id, w.(bad := false))
      }
    case CommitPoison(id, done) =>
      var w := s.workers[id];
      With(if done then s.(committed := w.phase.offset) else s, id, w.(phase := Reading))
  }

  predicate Init(s: State) {
    && s.inputID != "" && s.partition >= 0 && s.batchSize >= 1
    && s.committed == -1 && s.db == EMPTY_DB && s.workers == map[] && s.lost == {}
  }

  /** `steps` can be taken from `s`, one after the other. */
  ghost predicate Executable(s: State, steps: seq<Step>)
    decreases |steps|
  {
    steps == [] || (Enabled(s, steps[0]) && Executable(Apply(s, steps[0]), steps[1..]))
  }

  ghost function Run(s: State, steps: seq<Step>): State
    requires Executable(s, steps)
    decreases |steps|
  {
    if steps == [] then s else Run(Apply(s, steps[0]), steps[1..])
  }

  // ---- the reference: an in-order replay of the log ---------------------------------

  /** The largest terminal id among the decodable deltas at offsets below `n`. */
  function HighWater(kind: Kind, log: seq<Payload>, n: int): Option<int>
    requires n <= |log|
    decreases n
  {
    if n <= 0 then None
    else
      var before := HighWater(kind, log, n - 1);
      var p := log[n - 1];
      if kind.DeltaKind? && Decodable(kind, p) && DeltaGate.DeltaTerminal(p.fact.delta).Some? then
        var t := DeltaGate.DeltaTerminal(p.fact.delta);
        if before.None? || before.value < t.value then t else before
      else before
  }

  /** Does the message at offset `o` belong in the fact tables? Every decodable trade and
      kline does; a delta does when its terminal id is a new maximum. */
  predicate Counts(kind: Kind, log: seq<Payload>, o: int)
    requires 0 <= o < |log|
  {
    && Decodable(kind, log[o])
    && (kind.DeltaKind? ==>
          var t, high := DeltaGate.DeltaTerminal(log[o].fact.delta), HighWater(kind, log, o);
          t.Some? && high.Some? ==> t.value > high.value)
  }

  function ApplyFact(t: Tables, offset: int, fact: Fact): Tables {
    match fact
    case TradeFact(x) => t.(trades := InsertTrade(t.trades, offset, x))
    case KlineFact(x) => t.(klines := KlineGuard.UpsertTable(t.klines, x))
    case DeltaFact(x) => t.(deltas := t.deltas + [(offset, x)])
  }

  /** The tables after one pass over offsets 0..n-1, with no crash, retry or second worker. */
  function Replay(kind: Kind, log: seq<Payload>, n: int): Tables
    requires n <= |log|
    decreases n
  {
    if n <= 0 then EMPTY_TABLES
    else if Counts(kind, log, n - 1) then ApplyFact(Replay(kind, log, n - 1), n - 1, log[n - 1].fact)
    else Replay(kind, log, n - 1)
  }

  /** The delta that set the high-water mark over the offsets below `n`. */
  function Leader(kind: Kind, log: seq<Payload>, n: int): Option<OrderBookDelta>
    requires n <= |log|
    decreases n
  {
    if n <= 0 then None
    else if kind.DeltaKind? && Counts(kind, log, n - 1) && DeltaGate.DeltaTerminal(log[n - 1].fact.delta).Some?
    then Some(log[n - 1].fact.delta)
    else Leader(kind, log, n - 1)
  }

  function EventIDOf(c: Option<OrderBookDelta>): string {
    if c.None? then "" else c.value.rawEventID
  }

  function TerminalOf(c: Option<OrderBookDelta>): Option<int> {
    if c.None? then None else DeltaGate.DeltaTerminal(c.value)
  }

  /** Every decodable delta carries a terminal id. */
  ghost predicate Terminals(log: seq<Payload>) {
    forall i :: 0 <= i < |log| && Decodable(DeltaKind, log[i]) ==> DeltaGate.DeltaTerminal(log[i].fact.delta).Some?
  }

  /** The delta at `o` is a new maximum, yet bears the event id of the previous one. */
  predicate Twin(log: seq<Payload>, o: int)
    requires 0 <= o < |log|
  {
    && Counts(DeltaKind, log, o)
    && log[o].fact.delta.rawEventID != "" && log[o].fact.delta.rawEventID == EventIDOf(Leader(DeltaKind, log, o))
  }

  ghost predicate NoTwins(log: seq<Payload>) {
    forall o :: 0 <= o < |log| ==> !Twin(log, o)
  }

  /** The premise under which the gate is a function of the log alone. It says nothing about
      trades and klines. */
  ghost predicate Regular(kind: Kind, log: seq<Payload>) {
    kind.DeltaKind? ==> Terminals(log) && NoTwins(log)
  }

  // ---- the invariant ----------------------------------------------------------------

  /** The message at `o` needs no further processing. */
  predicate Settled(s: State, o: int)
    requires 0 <= o < |s.log|
  {
    if Decodable(s.kind, s.log[o]) then o <= Durable(s.db) else o in s.db.poison || o in s.lost
  }

  ghost predicate SettledBelow(s: State, n: int) {
    n <= |s.log| && forall o :: 0 <= o < n ==> Settled(s, o)
  }

  /** The offset of the first message a worker has read but not yet flushed. */
  function Base(w: Worker): int {
    w.next - |w.pending| - (if w.bad then 1 else 0)
  }

  ghost predicate WorkerOK(s: State, w: Worker) {
    && 0 <= Base(w) && w.next <= |s.log|
    && SettledBelow(s, Base(w))
    && (!w.loaded ==> w.cursor == None && w.pending == [] && !w.bad && w.phase == Reading)
    && -1 <= w.cached <= Durable(s.db)
    && 0 <= w.horizon <= Durable(s.db) + 1
    && |w.pending| <= s.batchSize
    && (forall i :: 0 <= i < |w.pending| ==> RecordOK(s, w, i))
    && w.cached < Max(w.next, w.horizon)
    && (w.bad ==> !Decodable(s.kind, s.log[w.next - 1]))
    && (w.phase == Flushing ==> w.pending != [])
    && (w.phase == BatchWritten ==> w.pending != [] && LastOffset(w) <= Durable(s.db))
    && (w.phase.PoisonWritten? ==>
          w.pending == [] && !w.bad && w.phase.offset == w.next - 1 && 0 <= w.phase.offset)
  }

  predicate RecordOK(s: State, w: Worker, i: int)
    requires 0 <= i < |w.pending| && 0 <= Base(w) && w.next <= |s.log|
  {
    var r := w.pending[i];
    && r.offset == Base(w) + i
    && (r.offset > w.cached ==> Decodable(s.kind, s.log[r.offset]))
    && (r.fact.Some? ==> s.log[r.offset] == Carries(r.fact.value) && OfKind(s.kind, r.fact.value))
  }

  /** Unconditional part: positions, coverage, dead letters, and the cached offset. */
  ghost predicate Inv(s: State) {
    && s.inputID != "" && s.partition >= 0 && s.batchSize >= 1
    && -1 <= Durable(s.db) < |s.log|
    && -1 <= s.committed < |s.log|
    && SettledBelow(s, s.committed + 1)
    && (forall o :: 0 <= o <= Durable(s.db) && !Decodable(s.kind, s.log[o]) ==> o in s.db.poison || o in s.lost)
    && (forall o :: o in s.db.poison ==> 0 <= o < |s.log| && !Decodable(s.kind, s.log[o]))
    && (forall id :: id in s.workers ==> WorkerOK(s, s.workers[id]))
  }

  /** The tables are the replay of the log up to the durable offset, and every worker is
      about to write exactly what the replay would write next. */
  ghost predicate TablesInv(s: State)
    requires Inv(s)
  {
    Regular(s.kind, s.log) ==>
      && s.db.tables == Replay(s.kind, s.log, Durable(s.db) + 1)
      && (s.kind.DeltaKind? ==> CursorAt(s, StoredCursor(s.db), Durable(s.db) + 1))
      && (forall id :: id in s.workers && s.workers[id].loaded ==> PendingExact(s, s.workers[id]))
  }

  function StoredCursor(db: Db): Option<OrderBookDelta> {
    if db.progress.None? then None else Some(CursorOf(db.progress.value))
  }

  /** The cursor has the terminal id and the event id of the delta that set the maximum over
      the offsets below `n`. */
  ghost predicate CursorAt(s: State, c: Option<OrderBookDelta>, n: int)
    requires n <= |s.log|
  {
    && TerminalOf(c) == TerminalOf(Leader(s.kind, s.log, n))
    && EventIDOf(c) == EventIDOf(Leader(s.kind, s.log, n))
  }

  function Max(a: int, b: int): int {
    if a < b then b else a
  }

  ghost predicate PendingExact(s: State, w: Worker)
    requires WorkerOK(s, w) && Durable(s.db) < |s.log|
  {
    && (s.kind.DeltaKind? ==> CursorAt(s, w.cursor, Max(w.next, w.horizon)))
    && (forall i :: 0 <= i < |w.pending| ==> RecordOK(s, w, i) && RecordExact(s, w, w.pending[i]))
  }

  predicate RecordExact(s: State, w: Worker, r: Record)
    requires 0 <= r.offset < |s.log|
  {
    r.offset >= w.horizon && r.offset > w.cached ==>
      r.fact == if Counts(s.kind, s.log, r.offset) then Some(s.log[r.offset].fact) else None
  }
}
