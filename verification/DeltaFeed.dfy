/** What the order book is fed. After a batch is committed, `flushBatch` hands its deltas to
    `onDeltaApplied`: on regular logs exactly the stored ones, from where the session took over. */
module DeltaFeed {
  import opened MarketModel
  import opened FactStore
  import opened Ingestion
  import opened IngestionProofs
  import IngestionDeltas
  import DeltaGate
  import OrderBook
  import OrderBookProofs
  import opened BookFeed

  type Row = (int, OrderBookDelta)

  /** The protocol, and for each worker the deltas it has handed over in its session. */
  datatype Feed = Feed(core: Ingestion.State, handed: map<int, seq<Row>>)

  function HandedBy(s: Feed, id: int): seq<Row> {
    if id in s.handed then s.handed[id] else []
  }

  /** The deltas of a batch, as `flushBatch` passes them on. */
  function DeltasOf(rs: seq<Record>): seq<Row> {
    if rs == [] then []
    else
      var r := rs[|rs| - 1];
      DeltasOf(rs[..|rs| - 1]) +
      if r.fact.Some? && r.fact.value.DeltaFact? then [(r.offset, r.fact.value.delta)] else []
  }

  ghost function Apply(s: Feed, step: Step): Feed
    requires Enabled(s.core, step)
  {
    Feed(Ingestion.Apply(s.core, step),
          match step
          case Start(id) => s.handed[id := []]
          case CommitBatch(id, acked) =>
            if acked then s.handed[id := HandedBy(s, id) + DeltasOf(s.core.workers[id].pending)] else s.handed
          case _ => s.handed)
  }

  ghost predicate Executable(s: Feed, steps: seq<Step>)
    decreases |steps|
  {
    steps == [] || (Enabled(s.core, steps[0]) && Executable(Apply(s, steps[0]), steps[1..]))
  }

  ghost function Run(s: Feed, steps: seq<Step>): Feed
    requires Executable(s, steps)
    decreases |steps|
  {
    if steps == [] then s else Run(Apply(s, steps[0]), steps[1..])
  }

  ghost predicate Init(s: Feed) {
    Ingestion.Init(s.core) && s.core.kind == DeltaKind && s.handed == map[]
  }

  // ---- main results -----------------------------------------------------------------

  /** The rows that the replay stores for the offsets `lo..hi-1`. */
  function Stretch(log: seq<Payload>, lo: int, hi: int): seq<Row>
    requires 0 <= lo && hi <= |log|
    decreases hi
  {
    if hi <= lo then []
    else
      Stretch(log, lo, hi - 1) +
      if Counts(DeltaKind, log, hi - 1) then [(hi - 1, log[hi - 1].fact.delta)] else []
  }

  /** `rows` are consecutive rows of `table`, starting at index `at`. */
  predicate Consecutive(rows: seq<Row>, table: seq<Row>, at: nat) {
    at + |rows| <= |table| && rows == table[at..at + |rows|]
  }

  /** In every run of any number of workers on a regular log: the deltas that a session has handed
      to the book are consecutive rows of the delta table, each once and in order, beginning
      with the first one that was not yet stored when the session loaded its progress. */
  lemma HandedIsStored(s: Feed, steps: seq<Step>, id: int)
    requires Init(s) && Executable(s, steps)
    requires var t := Run(s, steps);
      Regular(DeltaKind, t.core.log) && id in t.core.workers && t.core.workers[id].loaded
    ensures var t := Run(s, steps);
      && 0 <= t.core.workers[id].horizon <= |t.core.log|
      && Consecutive(HandedBy(t, id), t.core.db.tables.deltas, |Stretch(t.core.log, 0, t.core.workers[id].horizon)|)
  {
    InitInv(s.core);
    RunKeepsFeed(s, steps);
    var t := Run(s, steps);
    assert SessionOK(t.core, t.core.workers[id], HandedBy(t, id));
    HandedInTable(t.core, t.core.workers[id], HandedBy(t, id));
  }

  function Values(rows: seq<Row>): seq<OrderBookDelta> {
    seq(|rows|, i requires 0 <= i < |rows| => rows[i].1)
  }

  /** End to end. Where a session feeds a book, and the book is ready with its last ordered
      snapshot acknowledged: the book is that snapshot folded with consecutive rows of the delta
      table, up to the last row the session has handed over, each contiguous with the one before. */
  lemma BookIsSnapshotPlusStoredRows(s: Feed, steps: seq<Step>, id: int, rank: OrderBook.Rank, maxPending: int,
                                     es: seq<Arrived>, i: nat) returns (at: nat, rows: seq<Row>)
    requires Init(s) && Executable(s, steps)
    requires var t := Run(s, steps);
      && Regular(DeltaKind, t.core.log) && id in t.core.workers && t.core.workers[id].loaded
      && FedDeltas(es) == Values(HandedBy(t, id))
    requires Follow(rank, maxPending, es).ready && LastSuccess(rank, maxPending, es, i)
    ensures Consecutive(rows, Run(s, steps).core.db.tables.deltas, at)
    ensures |rows| <= |HandedBy(Run(s, steps), id)|
    ensures rows == HandedBy(Run(s, steps), id)[|HandedBy(Run(s, steps), id)| - |rows|..]
    ensures OrderBookProofs.Explains(Follow(rank, maxPending, es), es[i].snapshot, Values(rows))
  {
    var t := Run(s, steps);
    HandedIsStored(s, steps, id);
    at, rows := BookOverTable(HandedBy(t, id), t.core.db.tables.deltas,
                              |Stretch(t.core.log, 0, t.core.workers[id].horizon)|, rank, maxPending, es, i);
  }

  lemma BookOverTable(handed: seq<Row>, table: seq<Row>, from: nat, rank: OrderBook.Rank, maxPending: int,
                      es: seq<Arrived>, i: nat) returns (at: nat, rows: seq<Row>)
    requires Consecutive(handed, table, from) && FedDeltas(es) == Values(handed)
    requires Follow(rank, maxPending, es).ready && LastSuccess(rank, maxPending, es, i)
    ensures Consecutive(rows, table, at) && |rows| <= |handed| && rows == handed[|handed| - |rows|..]
    ensures OrderBookProofs.Explains(Follow(rank, maxPending, es), es[i].snapshot, Values(rows))
  {
    BookTracks(rank, maxPending, es);
    var lo: nat :| Tracks(Follow(rank, maxPending, es), es[i].snapshot, FedDeltas(es), lo);
    LastRows(handed, table, from, lo);
    at, rows := from + lo, handed[lo..];
  }

  lemma LastRows(handed: seq<Row>, table: seq<Row>, at: nat, lo: nat)
    requires Consecutive(handed, table, at) && lo <= |handed|
    ensures Consecutive(handed[lo..], table, at + lo) && Values(handed[lo..]) == Values(handed)[lo..]
  {
  }

  // ---- the session's side -----------------------------------------------------------

  /** Everything counted from the horizon up to the first unflushed message has been handed over,
      and what is read again from before the horizon carries nothing. */
  ghost predicate FeedOK(core: Ingestion.State, w: Worker, handed: seq<Row>) {
    && 0 <= w.horizon <= |core.log| && 0 <= Base(w) && Base(w) + |w.pending| <= |core.log|
    && w.cached < Max(Base(w), w.horizon)
    && handed == Stretch(core.log, w.horizon, Max(Base(w), w.horizon))
    && (forall i :: 0 <= i < |w.pending| && w.pending[i].offset < w.horizon ==> w.pending[i].fact.None?)
  }

  ghost predicate Inv(s: Feed) {
    && Ingestion.Inv(s.core) && TablesInv(s.core) && s.core.kind == DeltaKind
    && (Regular(DeltaKind, s.core.log) ==>
          forall id :: id in s.core.workers ==> SessionOK(s.core, s.core.workers[id], HandedBy(s, id)))
  }

  lemma {:induction false} StretchOfPrefix(log: seq<Payload>, more: seq<Payload>, lo: int, hi: int)
    requires log <= more && 0 <= lo && hi <= |log|
    ensures Stretch(more, lo, hi) == Stretch(log, lo, hi)
    decreases hi
  {
    if hi > lo {
      StretchOfPrefix(log, more, lo, hi - 1);
      ReplayOfPrefix(DeltaKind, log, more, hi - 1);
    }
  }

  lemma {:induction false} StretchSplits(log: seq<Payload>, lo: int, mid: int, hi: int)
    requires 0 <= lo <= mid <= hi <= |log|
    ensures Stretch(log, lo, hi) == Stretch(log, lo, mid) + Stretch(log, mid, hi)
    decreases hi
  {
    if hi > mid {
      StretchSplits(log, lo, mid, hi - 1);
    }
  }

  lemma {:induction false} NothingCounted(log: seq<Payload>, lo: int, hi: int)
    requires 0 <= lo && hi <= |log| && forall o :: lo <= o < hi ==> !Decodable(DeltaKind, log[o])
    ensures Stretch(log, lo, hi) == []
    decreases hi
  {
    if hi > lo {
      NothingCounted(log, lo, hi - 1);
    }
  }

  lemma {:induction false} ReplayIsStretch(log: seq<Payload>, n: int)
    requires 0 <= n <= |log|
    ensures Replay(DeltaKind, log, n).deltas == Stretch(log, 0, n)
    decreases n
  {
    if n > 0 {
      ReplayIsStretch(log, n - 1);
    }
  }

  /** What a record at offset `o` passes on. */
  function FactAt(log: seq<Payload>, horizon: int, o: int): Option<Fact>
    requires 0 <= o < |log|
  {
    if o >= horizon && Counts(DeltaKind, log, o) then Some(log[o].fact) else None
  }

  /** Consecutive records that carry what the replay stores, from the horizon on. */
  lemma {:induction false} RecordsStretch(log: seq<Payload>, rs: seq<Record>, base: int, horizon: int)
    requires 0 <= base && base + |rs| <= |log| && 0 <= horizon <= |log|
    requires forall i :: 0 <= i < |rs| ==> rs[i].offset == base + i
    requires forall i :: 0 <= i < |rs| ==> rs[i].fact == FactAt(log, horizon, base + i)
    ensures Stretch(log, horizon, Max(base + |rs|, horizon)) ==
            Stretch(log, horizon, Max(base, horizon)) + DeltasOf(rs)
  {
    if rs != [] {
      var front := rs[..|rs| - 1];
      assert forall i :: 0 <= i < |front| ==> front[i] == rs[i];
      RecordsStretch(log, front, base, horizon);
      var n := base + |front|;
      assert rs[|front|].fact == FactAt(log, horizon, n);
      if n < horizon {
        assert Max(n + 1, horizon) == Max(n, horizon) == horizon;
      } else {
        assert Max(n + 1, horizon) == n + 1 && Max(n, horizon) == n;
      }
    }
  }

  /** A batch passes on exactly what the replay stores for its offsets beyond the horizon. */
  lemma BatchStretch(core: Ingestion.State, w: Worker)
    requires WorkerOK(core, w) && Durable(core.db) < |core.log| && PendingExact(core, w) && core.kind == DeltaKind
    requires w.cached < Max(Base(w), w.horizon) && w.horizon <= |core.log|
    requires forall i :: 0 <= i < |w.pending| && w.pending[i].offset < w.horizon ==> w.pending[i].fact.None?
    ensures Base(w) + |w.pending| <= |core.log|
    ensures Stretch(core.log, w.horizon, Max(Base(w) + |w.pending|, w.horizon)) ==
            Stretch(core.log, w.horizon, Max(Base(w), w.horizon)) + DeltasOf(w.pending)
  {
    forall i | 0 <= i < |w.pending|
      ensures w.pending[i].offset == Base(w) + i
      ensures w.pending[i].fact == FactAt(core.log, w.horizon, Base(w) + i)
    {
      assert RecordOK(core, w, i) && RecordExact(core, w, w.pending[i]);
    }
    RecordsStretch(core.log, w.pending, Base(w), w.horizon);
  }

  lemma Middle(a: seq<Row>, rows: seq<Row>, c: seq<Row>)
    ensures Consecutive(rows, a + rows + c, |a|)
  {
  }

  /** A stretch lies in the table, also when it runs on over undecodable messages. */
  lemma StretchInTable(log: seq<Payload>, lo: int, hi: int, end: int)
    requires 0 <= lo <= hi <= |log| && lo <= end <= |log|
    requires forall o :: end <= o < hi ==> !Decodable(DeltaKind, log[o])
    ensures Consecutive(Stretch(log, lo, hi), Stretch(log, 0, end), |Stretch(log, 0, lo)|)
  {
    StretchSplits(log, 0, lo, hi);
    if hi <= end {
      StretchSplits(log, 0, hi, end);
      Middle(Stretch(log, 0, lo), Stretch(log, lo, hi), Stretch(log, hi, end));
    } else {
      NothingCounted(log, end, hi);
      StretchSplits(log, 0, end, hi);
      Middle(Stretch(log, 0, lo), Stretch(log, lo, hi), []);
    }
  }

  lemma HandedInTable(core: Ingestion.State, w: Worker, handed: seq<Row>)
    requires Ingestion.Inv(core) && TablesInv(core) && core.kind == DeltaKind && Regular(DeltaKind, core.log)
    requires WorkerOK(core, w) && FeedOK(core, w, handed)
    ensures Consecutive(handed, core.db.tables.deltas, |Stretch(core.log, 0, w.horizon)|)
  {
    var end, upTo := Durable(core.db) + 1, Max(Base(w), w.horizon);
    forall o | end <= o < upTo
      ensures !Decodable(DeltaKind, core.log[o])
    {
      assert Settled(core, o);
    }
    ReplayIsStretch(core.log, end);
    StretchInTable(core.log, w.horizon, upTo, end);
  }

  // ---- every step -------------------------------------------------------------------

  lemma LoadFeeds(core: Ingestion.State, w: Worker)
    requires Ingestion.Inv(core) && core.kind == DeltaKind && WorkerOK(core, w) && !w.loaded
    ensures FeedOK(core, LoadProgress(DeltaKind, w, core.db.progress), [])
  {
    var end := Durable(core.db) + 1;
    if end < w.next {
      forall o | end <= o < w.next
        ensures !Decodable(DeltaKind, core.log[o])
      {
        assert Settled(core, o);
      }
      NothingCounted(core.log, end, w.next);
    }
  }

  lemma FetchFeeds(core: Ingestion.State, w: Worker, handed: seq<Row>)
    requires core.kind == DeltaKind && Regular(DeltaKind, core.log) && WorkerOK(core, w) && FeedOK(core, w, handed)
    requires !w.bad && w.next < |core.log| && CursorAt(core, w.cursor, Max(w.next, w.horizon))
    ensures FeedOK(core, Prepare(DeltaKind, w, core.log[w.next]), handed)
  {
    if w.next < w.horizon && Decodable(DeltaKind, core.log[w.next]) {
      GateIsMaximum(core, w.cursor, w.horizon, w.next);
    }
  }

  lemma CommitFeeds(core: Ingestion.State, w: Worker, handed: seq<Row>)
    requires Ingestion.Inv(core) && core.kind == DeltaKind && WorkerOK(core, w) && PendingExact(core, w)
    requires FeedOK(core, w, handed) && w.pending != []
    ensures FeedOK(core, w.(phase := Reading, pending := [], cached := LastOffset(w)), handed + DeltasOf(w.pending))
  {
    assert RecordOK(core, w, |w.pending| - 1);
    BatchStretch(core, w);
  }

  /** Giving up an undecodable message moves the worker past it. */
  lemma SkipFeeds(core: Ingestion.State, w: Worker, v: Worker, handed: seq<Row>)
    requires core.kind == DeltaKind && WorkerOK(core, w) && FeedOK(core, w, handed) && w.bad && w.pending == []
    requires v == w.(bad := false, phase := v.phase)
    ensures FeedOK(core, v, handed)
  {
  }

  /** What a session has handed over after a step of its worker. */
  function HandedAfter(core: Ingestion.State, step: Step, id: int, handed: seq<Row>): seq<Row>
    requires id in core.workers
  {
    if step == CommitBatch(id, true) then handed + DeltasOf(core.workers[id].pending) else handed
  }

  ghost predicate SessionOK(core: Ingestion.State, w: Worker, handed: seq<Row>) {
    if w.loaded then FeedOK(core, w, handed) else handed == []
  }

  /** The worker that takes the step. */
  lemma MoverFeeds(core: Ingestion.State, step: Step, id: int, handed: seq<Row>)
    requires Ingestion.Inv(core) && TablesInv(core) && core.kind == DeltaKind && Regular(DeltaKind, core.log)
    requires Enabled(core, step) && !step.Produce? && step.id == id && id in core.workers
    requires id in Ingestion.Apply(core, step).workers && SessionOK(core, core.workers[id], handed)
    ensures SessionOK(core, Ingestion.Apply(core, step).workers[id], HandedAfter(core, step, id, handed))
  {
    var w := core.workers[id];
    assert WorkerOK(core, w);
    match step
    case Load(_) => LoadFeeds(core, w);
    case Fetch(_) =>
      assert PendingExact(core, w);
      FetchFeeds(core, w, handed);
    case CommitBatch(_, acked) =>
      if acked {
        assert PendingExact(core, w);
        CommitFeeds(core, w, handed);
      }
    case WritePoison(_, _) => SkipFeeds(core, w, Ingestion.Apply(core, step).workers[id], handed);
    case _ =>
  }

  lemma OneSession(s: Feed, step: Step, id: int)
    requires Inv(s) && Enabled(s.core, step) && Regular(DeltaKind, s.core.log) && s.core.log <= Apply(s, step).core.log
    requires id in Apply(s, step).core.workers
    ensures var t := Apply(s, step); SessionOK(t.core, t.core.workers[id], HandedBy(t, id))
  {
    var core' := Ingestion.Apply(s.core, step);
    HandedChanges(s, step, id);
    if step.Produce? || step.id != id {
      SessionExtends(s.core, core', s.core.workers[id], HandedBy(s, id));
    } else if !step.Start? {
      MoverFeeds(s.core, step, id, HandedBy(s, id));
      SessionExtends(s.core, core', core'.workers[id], HandedAfter(s.core, step, id, HandedBy(s, id)));
    }
  }

  lemma HandedChanges(s: Feed, step: Step, id: int)
    requires Enabled(s.core, step) && id in Ingestion.Apply(s.core, step).workers
    ensures var t := Apply(s, step);
      if step.Produce? || step.id != id then
        id in s.core.workers && t.core.workers[id] == s.core.workers[id] && HandedBy(t, id) == HandedBy(s, id)
      else if step.Start? then !t.core.workers[id].loaded && HandedBy(t, id) == []
      else id in s.core.workers && HandedBy(t, id) == HandedAfter(s.core, step, id, HandedBy(s, id))
  {
  }

  lemma SessionExtends(core: Ingestion.State, core': Ingestion.State, w: Worker, handed: seq<Row>)
    requires SessionOK(core, w, handed) && core.log <= core'.log
    ensures SessionOK(core', w, handed)
  {
    if w.loaded {
      StretchOfPrefix(core.log, core'.log, w.horizon, Max(Base(w), w.horizon));
    }
  }

  lemma StepKeepsFeed(s: Feed, step: Step)
    requires Inv(s) && Enabled(s.core, step)
    ensures Inv(Apply(s, step))
  {
    StepKeepsTables(s.core, step);
    IngestionDeltas.KindStays(s.core, step);
    var t := Apply(s, step);
    if Regular(DeltaKind, t.core.log) {
      RegularPrefix(DeltaKind, s.core.log, t.core.log);
      forall id | id in t.core.workers
        ensures SessionOK(t.core, t.core.workers[id], HandedBy(t, id))
      {
        OneSession(s, step, id);
      }
    }
  }

  lemma {:induction false} RunKeepsFeed(s: Feed, steps: seq<Step>)
    requires Inv(s) && Executable(s, steps)
    ensures Inv(Run(s, steps))
    decreases |steps|
  {
    if steps != [] {
      StepKeepsFeed(s, steps[0]);
      RunKeepsFeed(Apply(s, steps[0]), steps[1..]);
    }
  }
}
