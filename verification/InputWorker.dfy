/** `inputWorker` as it runs: maps and a pending slice updated in place, one consumer, one
    store, several partitions. Every atomic operation is a step of the ingestion protocol on
    the partition it touches, so the protocol's invariant holds after every call. */
module InputWorker {
  import opened MarketModel
  import opened FactStore
  import opened Ingestion
  import opened IngestionProofs
  import DeltaGate

  // ---- single protocol operations on one worker -------------------------------------

  /** One partition with exactly one worker on it. */
  function Alone(kind: Kind, inputID: string, q: int, size: int, log: seq<Payload>,
                 committed: int, db: Db, lost: set<int>, w: Worker): State {
    State(kind, inputID, q, size, log, committed, db, map[0 := w], lost)
  }

  ghost predicate Good(s: State) {
    Inv(s) && TablesInv(s)
  }

  predicate IsAlone(s: State) {
    s.workers.Keys == {0}
  }

  function Swap(s: State, w: Worker): State {
    s.(workers := map[0 := w])
  }

  lemma StepAlone(s: State, step: Step)
    requires Good(s) && IsAlone(s) && Enabled(s, step)
    ensures Good(Apply(s, step))
  {
    StepKeepsTables(s, step);
  }

  /** Going back to reading, as a stopped worker does, keeps everything. */
  lemma BackToReading(s: State)
    requires Good(s) && IsAlone(s)
    ensures Good(Swap(s, s.workers[0].(phase := Reading)))
  {
    var w, v := s.workers[0], s.workers[0].(phase := Reading);
    var t := Swap(s, v);
    SettledBelowExtends(s, t, s.committed + 1);
    SettledBelowExtends(s, t, Base(w));
    forall i | 0 <= i < |v.pending|
      ensures RecordOK(t, v, i)
    {
      assert RecordOK(s, w, i);
    }
    OthersKept(s, t, 0);
    if Regular(s.kind, s.log) && v.loaded {
      PendingExactCarried(s, t, w, v);
    }
    TablesKept(s, t, 0);
  }

  lemma LoadAlone(s: State)
    requires Good(s) && IsAlone(s) && !s.workers[0].loaded
    ensures Good(Swap(s, LoadProgress(s.kind, s.workers[0], s.db.progress)))
  {
    StepAlone(s, Load(0));
    assert Apply(s, Load(0)) == Swap(s, LoadProgress(s.kind, s.workers[0], s.db.progress));
  }

  lemma FetchAlone(s: State)
    requires Good(s) && IsAlone(s) && Enabled(s, Fetch(0))
    ensures Good(Swap(s, Prepare(s.kind, s.workers[0], s.log[s.workers[0].next])))
  {
    StepAlone(s, Fetch(0));
    assert Apply(s, Fetch(0)) == Swap(s, Prepare(s.kind, s.workers[0], s.log[s.workers[0].next]));
  }

  /** A write, acknowledged or not, by a worker that then stays where it was. */
  lemma WriteAlone(s: State)
    requires Good(s) && IsAlone(s) && Live(s, 0, Reading) && s.workers[0].pending != []
    ensures var b := BatchOf(s.kind, s.inputID, s.partition, s.workers[0]);
      && ValidBatch(b)
      && Good(s.(db := Write(s.db, b)))
      && LastOffset(s.workers[0]) <= Durable(Write(s.db, b))
  {
    var w := s.workers[0];
    BatchIsValid(s, w);
    StepAlone(s, BeginFlush(0));
    var s1 := Apply(s, BeginFlush(0));
    assert BatchOf(s.kind, s.inputID, s.partition, s1.workers[0]) == BatchOf(s.kind, s.inputID, s.partition, w);
    StepAlone(s1, WriteBatch(0, false));
    var s2 := Apply(s1, WriteBatch(0, false));
    BackToReading(s2);
    assert Swap(s2, s2.workers[0].(phase := Reading)) ==
      s.(db := Write(s.db, BatchOf(s.kind, s.inputID, s.partition, w))) by {
      assert s2.workers[0].(phase := Reading) == w;
      assert s.workers == map[0 := w];
    }
  }

  /** A worker whose batch is already durable may go on to commit it. */
  lemma WrittenAlone(s: State)
    requires Good(s) && IsAlone(s) && Live(s, 0, Reading) && s.workers[0].pending != []
    requires LastOffset(s.workers[0]) <= Durable(s.db)
    ensures Good(Swap(s, s.workers[0].(phase := BatchWritten)))
  {
    StepAlone(s, BeginFlush(0));
    var s1 := Apply(s, BeginFlush(0));
    WriteShape(s1, 0, true);
    StepAlone(s1, WriteBatch(0, true));
    assert Apply(s1, WriteBatch(0, true)) == Swap(s, s.workers[0].(phase := BatchWritten));
  }

  /** A commit of a durable batch, acknowledged or not. */
  lemma CommitAlone(s: State)
    requires Good(s) && IsAlone(s) && Live(s, 0, Reading) && s.workers[0].pending != []
    requires LastOffset(s.workers[0]) <= Durable(s.db)
    ensures var w := s.workers[0];
      && Good(s.(committed := LastOffset(w)))
      && Good(Swap(s.(committed := LastOffset(w)), w.(pending := [], cached := LastOffset(w))))
  {
    var w := s.workers[0];
    WrittenAlone(s);
    var s2 := Swap(s, w.(phase := BatchWritten));
    StepAlone(s2, CommitBatch(0, false));
    var s3 := Apply(s2, CommitBatch(0, false));
    BackToReading(s3);
    assert s.workers == map[0 := w];
    assert Swap(s3, s3.workers[0].(phase := Reading)) == s.(committed := LastOffset(w));
    StepAlone(s2, CommitBatch(0, true));
    assert Apply(s2, CommitBatch(0, true)) ==
      Swap(s.(committed := LastOffset(w)), w.(pending := [], cached := LastOffset(w)));
  }

  /** Dead-lettering an undecodable message in hand: the row may be stored or lost. */
  function Poisoned(s: State, outcome: PoisonOutcome): State
    requires IsAlone(s)
  {
    var w := s.workers[0];
    Swap(if outcome == Failed then s.(lost := s.lost + {w.next - 1})
         else s.(db := s.db.(poison := s.db.poison + {w.next - 1})), w.(bad := false))
  }

  lemma PoisonAlone(s: State, outcome: PoisonOutcome)
    requires Good(s) && IsAlone(s) && Enabled(s, WritePoison(0, outcome))
    ensures Good(Poisoned(s, outcome))
  {
    StepAlone(s, WritePoison(0, outcome));
    var s1 := Apply(s, WritePoison(0, outcome));
    assert s.workers == map[0 := s.workers[0]];
    BackToReading(s1);
    assert Swap(s1, s1.workers[0].(phase := Reading)) == Poisoned(s, outcome);
  }

  /** Once its row is stored, the message's offset may be committed. */
  lemma PoisonCommitAlone(s: State)
    requires Good(s) && IsAlone(s) && Enabled(s, WritePoison(0, Stored))
    ensures Good(Poisoned(s, Stored).(committed := s.workers[0].next - 1))
  {
    var w := s.workers[0];
    StepAlone(s, WritePoison(0, Stored));
    var s1 := Apply(s, WritePoison(0, Stored));
    assert s.workers == map[0 := w];
    StepAlone(s1, CommitPoison(0, true));
    assert Apply(s1, CommitPoison(0, true)) == Poisoned(s, Stored).(committed := w.next - 1);
  }

  /** The state after an undecodable message has been fetched and dead-lettered. */
  function AfterPoison(s: State, outcome: PoisonOutcome, done: bool): State
    requires IsAlone(s)
  {
    var w := s.workers[0];
    var t := Swap(if outcome == Failed then s.(lost := s.lost + {w.next})
                  else s.(db := s.db.(poison := s.db.poison + {w.next})), w.(next := w.next + 1));
    if done then t.(committed := w.next) else t
  }

  lemma FetchPoisonAlone(s: State, outcome: PoisonOutcome, done: bool)
    requires Good(s) && IsAlone(s) && Enabled(s, Fetch(0)) && s.workers[0].pending == []
    requires !Decodable(s.kind, s.log[s.workers[0].next]) && s.workers[0].next > s.workers[0].cached
    requires done ==> outcome == Stored
    ensures Good(AfterPoison(s, outcome, done))
  {
    FetchAlone(s);
    var s1 := Swap(s, s.workers[0].(next := s.workers[0].next + 1, bad := true));
    assert s1 == Swap(s, Prepare(s.kind, s.workers[0], s.log[s.workers[0].next]));
    if done {
      PoisonCommitAlone(s1);
      assert AfterPoison(s, outcome, true) == Poisoned(s1, Stored).(committed := s1.workers[0].next - 1);
    } else {
      PoisonAlone(s1, outcome);
      assert AfterPoison(s, outcome, false) == Poisoned(s1, outcome);
    }
  }

  lemma AnyPoisonAlone(s: State, t: State)
    requires Good(s) && IsAlone(s) && Enabled(s, Fetch(0)) && s.workers[0].pending == []
    requires !Decodable(s.kind, s.log[s.workers[0].next]) && s.workers[0].next > s.workers[0].cached
    requires || t == AfterPoison(s, Failed, false) || t == AfterPoison(s, Stored, false)
             || t == AfterPoison(s, Stored, true)
    ensures Good(t)
  {
    FetchPoisonAlone(s, Failed, false);
    FetchPoisonAlone(s, Stored, false);
    FetchPoisonAlone(s, Stored, true);
  }

  /** What `prepare` decides does not depend on the batch it appends to. */
  lemma PrepareIgnoresBatch(kind: Kind, w: Worker, p: Payload)
    requires !w.bad
    ensures var v := Prepare(kind, w.(pending := []), p);
      Prepare(kind, w, p) == v.(pending := w.pending + v.pending)
  {
  }

  // ---- the running worker -----------------------------------------------------------

  /** The Kafka consumer of one input: logs, this session's read positions, and the
      committed offsets of its consumer group. */
  class Consumer {
    const logs: map<int, seq<Payload>>
    var position: map<int, int>
    var committed: map<int, int>

    constructor (logs: map<int, seq<Payload>>, committed: map<int, int>)
      ensures this.logs == logs && this.committed == committed
      ensures forall q :: Position(q) == Committed(q) + 1
    {
      this.logs := logs;
      this.committed := committed;
      this.position := map q | q in committed :: committed[q] + 1;
    }

    function Log(q: int): seq<Payload> {
      if q in logs then logs[q] else []
    }

    function Position(q: int): int
      reads this
    {
      if q in position then position[q] else 0
    }

    function Committed(q: int): int
      reads this
    {
      if q in committed then committed[q] else -1
    }

    method Fetch(q: int) returns (p: Payload)
      requires 0 <= Position(q) < |Log(q)|
      modifies this`position
      ensures p == Log(q)[old(Position(q))]
      ensures Position(q) == old(Position(q)) + 1
      ensures forall r :: r != q ==> Position(r) == old(Position(r))
    {
      p := Log(q)[Position(q)];
      position := position[q := Position(q) + 1];
    }

    method Commit(q: int, offset: int)
      modifies this`committed
      ensures Committed(q) == offset
      ensures forall r :: r != q ==> Committed(r) == old(Committed(r))
    {
      committed := committed[q := offset];
    }
  }

  class InputWorker {
    const kind: Kind
    const inputID: string
    const batchSize: int
    const storage: PostgresStorage
    const consumer: Consumer

    /** The batch being collected; all of it belongs to `pendingPartition`. */
    var pending: seq<Record>
    var pendingPartition: int
    var durableByPartition: map<int, int>
    var loadedProgress: set<int>
    var lastDeltaByPartition: map<int, OrderBookDelta>

    ghost var horizon: map<int, int>
    ghost var lost: map<int, set<int>>
    /** The partition of a fetched message that has not been handled yet. */
    ghost var inHand: Option<int>

    /** This worker as the protocol sees it on partition `q`. */
    ghost function View(q: int): Worker
      reads this, consumer
    {
      Worker(
        consumer.Position(q) - (if inHand == Some(q) then 1 else 0),
        q in loadedProgress,
        if q in durableByPartition then durableByPartition[q] else -1,
        if q in horizon then horizon[q] else 0,
        if q in lastDeltaByPartition then Some(lastDeltaByPartition[q]) else None,
        if q == pendingPartition then pending else [],
        false,
        Reading)
    }

    ghost function Lost(q: int): set<int>
      reads this
    {
      if q in lost then lost[q] else {}
    }

    ghost function Proto(q: int): State
      reads this, consumer, storage
    {
      Alone(kind, inputID, q, batchSize, consumer.Log(q), consumer.Committed(q), storage.At(q), Lost(q), View(q))
    }

    ghost predicate Valid()
      reads this, consumer, storage
    {
      && 0 <= pendingPartition && loadedProgress == durableByPartition.Keys
      && (forall q :: 0 <= q ==> Good(Proto(q)))
    }

    /** A new session: reads from the committed offsets, knows nothing else. */
    constructor (kind: Kind, inputID: string, batchSize: int, storage: PostgresStorage, consumer: Consumer,
                 ghost lost: map<int, set<int>>)
      requires forall q :: consumer.Position(q) == consumer.Committed(q) + 1
      requires forall q :: 0 <= q ==>
        Good(State(kind, inputID, q, batchSize, consumer.Log(q), consumer.Committed(q), storage.At(q), map[],
                   if q in lost then lost[q] else {}))
      ensures Valid() && pending == [] && inHand == None
      ensures this.storage == storage && this.consumer == consumer
    {
      this.kind, this.inputID, this.batchSize := kind, inputID, batchSize;
      this.storage, this.consumer := storage, consumer;
      pending, pendingPartition := [], 0;
      durableByPartition, loadedProgress, lastDeltaByPartition := map[], {}, map[];
      this.horizon, this.lost, inHand := map[], lost, None;
      new;
      forall q | 0 <= q
        ensures Good(Proto(q))
      {
        var s := State(kind, inputID, q, batchSize, consumer.Log(q), consumer.Committed(q), storage.At(q), map[],
                       Lost(q));
        StepKeepsTables(s, Start(0));
        assert Apply(s, Start(0)) == Proto(q);
      }
    }

    /** `ensureProgress`: load the durable offset and the delta cursor once per partition. */
    method EnsureProgress(q: int)
      requires Valid() && 0 <= q
      modifies this`durableByPartition, this`loadedProgress, this`lastDeltaByPartition, this`horizon
      ensures Valid() && q in loadedProgress
      ensures View(q) == if q in old(loadedProgress) then old(View(q))
                         else LoadProgress(kind, old(View(q)), storage.At(q).progress)
      ensures forall r :: r != q ==> View(r) == old(View(r))
    {
      if q in loadedProgress {
        return;
      }
      LoadProgressOf(q);
      LoadKeepsValid(q);
    }

    method LoadProgressOf(q: int)
      requires q !in loadedProgress && loadedProgress == durableByPartition.Keys
      modifies this`durableByPartition, this`loadedProgress, this`lastDeltaByPartition, this`horizon
      ensures View(q) == LoadProgress(kind, old(View(q)), storage.At(q).progress)
      ensures loadedProgress == old(loadedProgress) + {q} == durableByPartition.Keys
      ensures forall r :: r != q ==> View(r) == old(View(r))
    {
      var progress := storage.LoadStreamWriteProgress(q);
      loadedProgress := loadedProgress + {q};
      var durable := if progress.Some? then progress.value.durableOffset else -1;
      durableByPartition := durableByPartition[q := durable];
      horizon := horizon[q := durable + 1];
      if progress.Some? && kind == DeltaKind {
        lastDeltaByPartition := lastDeltaByPartition[q := CursorOf(progress.value)];
      }
    }

    twostate lemma LoadKeepsValid(q: int)
      requires old(Valid()) && 0 <= q && q !in old(loadedProgress)
      requires unchanged(storage) && unchanged(consumer)
      requires pendingPartition == old(pendingPartition) && lost == old(lost)
      requires loadedProgress == durableByPartition.Keys
      requires View(q) == LoadProgress(kind, old(View(q)), storage.At(q).progress)
      requires forall r :: r != q ==> View(r) == old(View(r))
      ensures Valid()
    {
      var s := old(Proto(q));
      LoadAlone(s);
      assert Proto(q) == Swap(s, LoadProgress(kind, s.workers[0], s.db.progress));
      forall r | 0 <= r && r != q
        ensures Good(Proto(r))
      {
        assert Proto(r) == old(Proto(r));
      }
    }

    /** The protocol's verdict on one message, given this worker's durable offset and cursor. */
    ghost function Prepared(q: int, offset: int, p: Payload): Worker
      reads this, consumer
    {
      Ingestion.Prepare(kind, View(q).(next := offset, pending := [], bad := false), p)
    }

    /** `prepare`: what to do with the message at `offset`; `None` means undecodable. */
    method Prepare(q: int, offset: int, p: Payload) returns (r: Option<Record>)
      requires q in durableByPartition
      modifies this`lastDeltaByPartition
      ensures r.None? <==> old(Prepared(q, offset, p)).bad
      ensures r.Some? ==> old(Prepared(q, offset, p)).pending == [r.value]
      ensures View(q).cursor == old(Prepared(q, offset, p)).cursor
      ensures forall x :: x != q ==> View(x) == old(View(x))
    {
      if offset <= durableByPartition[q] {
        return Some(Record(offset, None));
      }
      if !Decodable(kind, p) {
        return None;
      }
      match kind {
        case TradeKind => return Some(Record(offset, Some(p.fact)));
        case KlineKind => return Some(Record(offset, Some(p.fact)));
        case DeltaKind =>
          var previous := if q in lastDeltaByPartition then Some(lastDeltaByPartition[q]) else None;
          var advance := DeltaGate.CheckDeltaContinuity(previous, p.fact.delta);
          if advance {
            lastDeltaByPartition := lastDeltaByPartition[q := p.fact.delta];
            return Some(Record(offset, Some(p.fact)));
          }
          return Some(Record(offset, None));
      }
    }

    /** The batch for the pending records. */
    method BuildBatch() returns (b: FactBatch)
      requires pending != []
      ensures b == BatchOf(kind, inputID, pendingPartition, View(pendingPartition))
    {
      var trades: seq<Row<Trade>>, klines: seq<Row<Kline>>, deltas: seq<Row<OrderBookDelta>> := [], [], [];
      for i := 0 to |pending|
        invariant trades == TradeRows(inputID, pendingPartition, pending[..i])
        invariant klines == KlineRows(inputID, pendingPartition, pending[..i])
        invariant deltas == DeltaRows(inputID, pendingPartition, pending[..i])
      {
        assert pending[..i + 1][..i] == pending[..i];
        var r := pending[i];
        if r.fact.Some? {
          match r.fact.value {
            case TradeFact(x) => trades := trades + [Row(inputID, pendingPartition, r.offset, x)];
            case KlineFact(x) => klines := klines + [Row(inputID, pendingPartition, r.offset, x)];
            case DeltaFact(x) => deltas := deltas + [Row(inputID, pendingPartition, r.offset, x)];
          }
        }
      }
      assert pending[..|pending|] == pending;
      var last := pending[|pending| - 1].offset;
      var progress := Progress(inputID, pendingPartition, last, "", None, None);
      if kind == DeltaKind && pendingPartition in lastDeltaByPartition {
        var cursor := lastDeltaByPartition[pendingPartition];
        progress := Progress(inputID, pendingPartition, last, cursor.rawEventID, cursor.lastUpdateID, cursor.sequence);
      }
      b := FactBatch(trades, klines, deltas, progress);
    }

    /** Where only partition `q` changed, and ended well, everything is well. */
    twostate lemma OneChanged(q: int)
      requires old(Valid()) && 0 <= pendingPartition && loadedProgress == durableByPartition.Keys
      requires 0 <= q && Good(Proto(q))
      requires forall r :: 0 <= r && r != q ==> Proto(r) == old(Proto(r))
      ensures Valid()
    {
      forall r | 0 <= r && r != q
        ensures Good(Proto(r))
      {
        assert Proto(r) == old(Proto(r));
      }
    }

    /** One attempt at the batch transaction that reached the database. */
    method WriteOnce(b: FactBatch) returns (ok: bool)
      requires Valid() && pending != []
      requires b == BatchOf(kind, inputID, pendingPartition, View(pendingPartition))
      modifies storage
      ensures Valid() && ok
      ensures storage.At(pendingPartition) == Write(old(storage.At(pendingPartition)), b)
      ensures pending[|pending| - 1].offset <= Durable(storage.At(pendingPartition))
      ensures forall r :: r != pendingPartition ==> storage.At(r) == old(storage.At(r))
    {
      WriteIsSafe(b);
      ok := storage.WriteFactBatch(b);
      WriteKeepsValid(b);
    }

    twostate lemma WriteKeepsValid(b: FactBatch)
      requires old(Valid()) && unchanged(this) && unchanged(consumer)
      requires Good(old(Proto(pendingPartition)).(db := Write(old(storage.At(pendingPartition)), b)))
      requires storage.At(pendingPartition) == Write(old(storage.At(pendingPartition)), b)
      requires forall r :: r != pendingPartition ==> storage.At(r) == old(storage.At(r))
      ensures Valid()
    {
      assert Proto(pendingPartition) ==
        old(Proto(pendingPartition)).(db := Write(old(storage.At(pendingPartition)), b));
      OneChanged(pendingPartition);
    }

    lemma WriteIsSafe(b: FactBatch)
      requires Valid() && pending != []
      requires b == BatchOf(kind, inputID, pendingPartition, View(pendingPartition))
      ensures ValidBatch(b) && Good(Proto(pendingPartition).(db := Write(storage.At(pendingPartition), b)))
      ensures pending[|pending| - 1].offset <= Durable(Write(storage.At(pendingPartition), b))
    {
      var s := Proto(pendingPartition);
      assert Good(s);
      WriteAlone(s);
    }

    /** One commit request that reached the broker, its answer still outstanding. */
    method CommitOnce(last: int)
      requires Valid() && pending != [] && last == pending[|pending| - 1].offset
      requires last <= Durable(storage.At(pendingPartition))
      modifies consumer`committed
      ensures Valid() && consumer.Committed(pendingPartition) == last
      ensures forall r :: r != pendingPartition ==> consumer.Committed(r) == old(consumer.Committed(r))
    {
      CommitIsSafe(last);
      consumer.Commit(pendingPartition, last);
      CommitKeepsValid(last);
    }

    lemma CommitIsSafe(last: int)
      requires Valid() && pending != [] && last == pending[|pending| - 1].offset
      requires last <= Durable(storage.At(pendingPartition))
      ensures var s := Proto(pendingPartition);
        && Good(s.(committed := last))
        && Good(Swap(s.(committed := last), s.workers[0].(pending := [], cached := last)))
    {
      var s := Proto(pendingPartition);
      assert Good(s);
      CommitAlone(s);
    }

    twostate lemma CommitKeepsValid(last: int)
      requires old(Valid()) && unchanged(this) && unchanged(storage) && unchanged(consumer`position)
      requires Good(old(Proto(pendingPartition)).(committed := last)) && consumer.Committed(pendingPartition) == last
      requires forall r :: r != pendingPartition ==> consumer.Committed(r) == old(consumer.Committed(r))
      ensures Valid()
    {
      assert Proto(pendingPartition) == old(Proto(pendingPartition)).(committed := last);
      OneChanged(pendingPartition);
    }

    /** The commit was acknowledged: remember the offset and empty the batch. */
    method FinishFlush(last: int)
      requires Valid() && pending != [] && last == pending[|pending| - 1].offset
      requires last <= Durable(storage.At(pendingPartition)) && consumer.Committed(pendingPartition) == last
      modifies this`pending, this`durableByPartition
      ensures Valid() && pending == []
      ensures durableByPartition == old(durableByPartition)[pendingPartition := last]
    {
      CommitIsSafe(last);
      durableByPartition := durableByPartition[pendingPartition := last];
      pending := [];
      FinishKeepsValid(last);
    }

    twostate lemma FinishKeepsValid(last: int)
      requires old(Valid()) && unchanged(storage) && unchanged(consumer) && pending == []
      requires var s := old(Proto(pendingPartition));
        Good(Swap(s.(committed := last), s.workers[0].(pending := [], cached := last)))
      requires consumer.Committed(pendingPartition) == last
      requires unchanged(this`pendingPartition, this`loadedProgress, this`lastDeltaByPartition, this`horizon)
      requires unchanged(this`lost, this`inHand)
      requires pendingPartition in old(loadedProgress)
      requires durableByPartition == old(durableByPartition)[pendingPartition := last]
      ensures Valid()
    {
      var s := old(Proto(pendingPartition));
      assert Proto(pendingPartition) ==
        Swap(s.(committed := last), s.workers[0].(pending := [], cached := last));
      OneChanged(pendingPartition);
    }

    /** The write half of `flushBatch`: retry until acknowledged or cancelled. A failed
        attempt may or may not have taken effect. */
    method WriteUntilAcked(b: FactBatch) returns (ok: bool)
      requires Valid() && pending != []
      requires b == BatchOf(kind, inputID, pendingPartition, View(pendingPartition))
      modifies storage
      ensures Valid()
      ensures ok ==>
        && ValidBatch(b)
        && storage.At(pendingPartition) == Write(old(storage.At(pendingPartition)), b)
        && b.progress.durableOffset <= Durable(storage.At(pendingPartition))
      ensures forall r :: r != pendingPartition ==> storage.At(r) == old(storage.At(r))
    {
      var failures :| 0 <= failures;
      for i := 0 to failures
        invariant Valid()
        invariant storage.At(pendingPartition) == old(storage.At(pendingPartition))
               || storage.At(pendingPartition) == Write(old(storage.At(pendingPartition)), b)
        invariant forall r :: r != pendingPartition ==> storage.At(r) == old(storage.At(r))
      {
        var applied: bool := *;
        if applied {
          var _ := WriteOnce(b);
        }
        var cancelled: bool := *;
        if cancelled {
          return false;
        }
      }
      ok := WriteOnce(b);
      BatchAccepted();
    }

    lemma BatchAccepted()
      requires Valid() && pending != []
      ensures ValidBatch(BatchOf(kind, inputID, pendingPartition, View(pendingPartition)))
    {
      var s := Proto(pendingPartition);
      assert Good(s) && s.workers[0] == View(pendingPartition);
      BatchIsValid(s, s.workers[0]);
    }

    /** The commit half of `flushBatch`. */
    method CommitUntilAcked(last: int) returns (ok: bool)
      requires Valid() && pending != [] && last == pending[|pending| - 1].offset
      requires last <= Durable(storage.At(pendingPartition))
      modifies consumer`committed
      ensures Valid()
      ensures ok ==> consumer.Committed(pendingPartition) == last
      ensures forall r :: r != pendingPartition ==> consumer.Committed(r) == old(consumer.Committed(r))
    {
      var failures :| 0 <= failures;
      for i := 0 to failures
        invariant Valid()
        invariant forall r :: r != pendingPartition ==> consumer.Committed(r) == old(consumer.Committed(r))
      {
        var applied: bool := *;
        if applied {
          CommitOnce(last);
        }
        var cancelled: bool := *;
        if cancelled {
          return false;
        }
      }
      CommitOnce(last);
      return true;
    }

    /** `flushBatch`: make the batch durable, then commit its last offset, then remember it. */
    method FlushBatch() returns (ok: bool)
      requires Valid() && pending != []
      modifies storage, consumer`committed, this`pending, this`durableByPartition
      ensures Valid()
      ensures pending == if ok then [] else old(pending)
      ensures ok ==>
        var b := old(BatchOf(kind, inputID, pendingPartition, View(pendingPartition)));
        && ValidBatch(b)
        && storage.At(pendingPartition) == Write(old(storage.At(pendingPartition)), b)
        && consumer.Committed(pendingPartition) == b.progress.durableOffset
        && durableByPartition == old(durableByPartition)[pendingPartition := b.progress.durableOffset]
      ensures !ok ==> durableByPartition == old(durableByPartition)
      ensures forall r :: r != pendingPartition ==>
        storage.At(r) == old(storage.At(r)) && consumer.Committed(r) == old(consumer.Committed(r))
    {
      var b := BuildBatch();
      var last := pending[|pending| - 1].offset;
      ok := WriteUntilAcked(b);
      if !ok {
        return;
      }
      ok := CommitUntilAcked(last);
      if !ok {
        return;
      }
      FinishFlush(last);
    }

    /** Take the message in hand into the batch, or report it undecodable. */
    method Handle(q: int, offset: int, p: Payload) returns (decoded: bool)
      requires Valid() && inHand == Some(q) && 0 <= q && q in loadedProgress
      requires 0 <= offset < |consumer.Log(q)| && p == consumer.Log(q)[offset] && consumer.Position(q) == offset + 1
      requires |pending| < batchSize && (pending == [] || pendingPartition == q)
      modifies this`pending, this`pendingPartition, this`lastDeltaByPartition, this`inHand
      ensures Valid()
      ensures inHand == if decoded then None else Some(q)
      ensures decoded ==> pendingPartition == q
      ensures decoded ==> exists r: Record :: r.offset == offset && pending == old(pending) + [r]
      ensures !decoded ==> pending == old(pending) && pendingPartition == old(pendingPartition)
      ensures !decoded ==> !Decodable(kind, p)
      ensures !decoded ==> offset > View(q).cached
    {
      ghost var verdict := Prepared(q, offset, p);
      assert verdict.bad ==> !Decodable(kind, p) && offset > View(q).cached;
      var r := Prepare(q, offset, p);
      decoded := r.Some?;
      if decoded {
        pendingPartition := q;
        pending := pending + [r.value];
        inHand := None;
        FetchKeepsValid(q);
      } else {
        NothingChanged();
      }
    }

    twostate lemma NothingChanged()
      requires old(Valid())
      requires unchanged(storage) && unchanged(consumer)
      requires pendingPartition == old(pendingPartition) && lost == old(lost)
      requires loadedProgress == durableByPartition.Keys
      requires forall q :: 0 <= q ==> View(q) == old(View(q))
      ensures Valid()
    {
      forall r | 0 <= r
        ensures Good(Proto(r))
      {
        assert Proto(r) == old(Proto(r));
      }
    }

    /** Everything about the worker that handling a message does not touch. */
    twostate predicate OnlyBatchChanged()
      reads this, consumer, storage
    {
      && unchanged(storage) && unchanged(consumer)
      && durableByPartition == old(durableByPartition) && loadedProgress == old(loadedProgress)
      && horizon == old(horizon) && lost == old(lost)
    }

    twostate lemma FetchKeepsValid(q: int)
      requires old(Valid()) && old(inHand) == Some(q) && inHand == None && 0 <= q && q in old(loadedProgress)
      requires OnlyBatchChanged()
      requires 1 <= consumer.Position(q) <= |consumer.Log(q)|
      requires |old(pending)| < batchSize && (old(pending) == [] || old(pendingPartition) == q)
      requires !Verdict(q).bad && pendingPartition == q && pending == old(pending) + Verdict(q).pending
      requires View(q).cursor == Verdict(q).cursor
      requires forall x :: x != q ==> View(x).cursor == old(View(x)).cursor
      ensures Valid()
    {
      FetchedView(q);
      FetchedOthers(q);
      FetchFromView(q);
    }

    /** The new view is the old one after `Prepare`. */
    twostate lemma FetchedView(q: int)
      requires old(inHand) == Some(q) && inHand == None
      requires OnlyBatchChanged()
      requires 1 <= consumer.Position(q) <= |consumer.Log(q)|
      requires old(pending) == [] || old(pendingPartition) == q
      requires !Verdict(q).bad && pendingPartition == q && pending == old(pending) + Verdict(q).pending
      requires View(q).cursor == Verdict(q).cursor
      ensures View(q) == Ingestion.Prepare(kind, old(View(q)), consumer.Log(q)[consumer.Position(q) - 1])
    {
      var w, v := old(View(q)), Verdict(q);
      PrepareIgnoresBatch(kind, w, consumer.Log(q)[consumer.Position(q) - 1]);
      assert w.pending == old(pending);
      assert v == Ingestion.Prepare(kind, w.(pending := []), consumer.Log(q)[consumer.Position(q) - 1]);
    }

    /** Other partitions look the same. */
    twostate lemma FetchedOthers(q: int)
      requires old(inHand) == Some(q) && inHand == None
      requires OnlyBatchChanged()
      requires old(pending) == [] || old(pendingPartition) == q
      requires pendingPartition == q
      requires forall x :: x != q ==> View(x).cursor == old(View(x)).cursor
      ensures forall r :: r != q ==> Proto(r) == old(Proto(r))
    {
      forall r | r != q
        ensures Proto(r) == old(Proto(r))
      {
        assert View(r) == old(View(r));
      }
    }

    twostate lemma FetchFromView(q: int)
      requires old(Valid()) && old(inHand) == Some(q) && 0 <= q && q in old(loadedProgress)
      requires OnlyBatchChanged() && 0 <= pendingPartition
      requires 1 <= consumer.Position(q) <= |consumer.Log(q)| && |old(View(q)).pending| < batchSize
      requires View(q) == Ingestion.Prepare(kind, old(View(q)), consumer.Log(q)[consumer.Position(q) - 1])
      requires forall r :: r != q ==> Proto(r) == old(Proto(r))
      ensures Valid()
    {
      var s := old(Proto(q));
      FetchAlone(s);
      assert Proto(q) == Swap(s, Ingestion.Prepare(kind, s.workers[0], s.log[s.workers[0].next]));
      OneChanged(q);
    }

    /** The protocol's verdict on the message that was in hand. */
    twostate function Verdict(q: int): Worker
      requires 1 <= consumer.Position(q) <= |consumer.Log(q)|
      reads this, consumer
    {
      var at := consumer.Position(q) - 1;
      old(Prepared(q, at, consumer.Log(q)[at]))
    }

    /** The dead-letter path for an undecodable message, its batch already flushed. */
    method DeadLetter(q: int, offset: int)
      requires Valid() && inHand == Some(q) && 0 <= q && q in loadedProgress && pending == []
      requires 0 <= offset < |consumer.Log(q)| && consumer.Position(q) == offset + 1
      requires !Decodable(kind, consumer.Log(q)[offset]) && offset > View(q).cached && batchSize >= 1
      modifies storage, consumer`committed, this`lost, this`inHand
      ensures Valid() && inHand == None
      ensures offset in storage.At(q).poison || offset in Lost(q)
      ensures consumer.Committed(q) == offset ==> old(consumer.Committed(q)) == offset || offset in storage.At(q).poison
    {
      var outcome: PoisonOutcome := *;
      if outcome == Failed {
        inHand := None;
        lost := lost[q := Lost(q) + {offset}];
        DeadLetterKeepsValid(q);
        return;
      }
      storage.WritePoisonRecord(q, offset);
      inHand := None;
      var done: bool := *;
      if outcome == Stored && done {
        consumer.Commit(q, offset);
      }
      DeadLetterKeepsValid(q);
    }

    twostate lemma DeadLetterKeepsValid(q: int)
      requires old(Valid()) && old(inHand) == Some(q) && inHand == None && 0 <= q && q in loadedProgress
      requires pending == []
      requires 1 <= consumer.Position(q) <= |consumer.Log(q)|
      requires !Decodable(kind, consumer.Log(q)[consumer.Position(q) - 1])
      requires consumer.Position(q) - 1 > old(View(q)).cached && batchSize >= 1
      requires unchanged(this`pending, this`pendingPartition, this`durableByPartition, this`loadedProgress,
                         this`lastDeltaByPartition, this`horizon, consumer`position)
      requires
        var o := consumer.Position(q) - 1;
        || (&& storage.At(q) == old(storage.At(q)).(poison := old(storage.At(q)).poison + {o})
            && Lost(q) == old(Lost(q))
            && (consumer.Committed(q) == old(consumer.Committed(q)) || consumer.Committed(q) == o))
        || (&& storage.At(q) == old(storage.At(q))
            && Lost(q) == old(Lost(q)) + {o}
            && consumer.Committed(q) == old(consumer.Committed(q)))
      requires forall r :: r != q ==>
        && storage.At(r) == old(storage.At(r)) && consumer.Committed(r) == old(consumer.Committed(r))
        && Lost(r) == old(Lost(r))
      ensures Valid()
    {
      DeadLetterProto(q);
      AnyPoisonAlone(old(Proto(q)), Proto(q));
      OneChanged(q);
    }

    twostate lemma DeadLetterProto(q: int)
      requires old(inHand) == Some(q) && inHand == None && pending == []
      requires 1 <= consumer.Position(q)
      requires unchanged(this`pending, this`pendingPartition, this`durableByPartition, this`loadedProgress,
                         this`lastDeltaByPartition, this`horizon, consumer`position)
      requires
        var o := consumer.Position(q) - 1;
        || (&& storage.At(q) == old(storage.At(q)).(poison := old(storage.At(q)).poison + {o})
            && Lost(q) == old(Lost(q))
            && (consumer.Committed(q) == old(consumer.Committed(q)) || consumer.Committed(q) == o))
        || (&& storage.At(q) == old(storage.At(q))
            && Lost(q) == old(Lost(q)) + {o}
            && consumer.Committed(q) == old(consumer.Committed(q)))
      ensures || Proto(q) == AfterPoison(old(Proto(q)), Failed, false)
              || Proto(q) == AfterPoison(old(Proto(q)), Stored, false)
              || Proto(q) == AfterPoison(old(Proto(q)), Stored, true)
      ensures forall r :: r != q ==> View(r) == old(View(r))
    {
      var w := old(View(q));
      assert View(q) == w.(next := w.next + 1);
    }

    /** `consume`: any finite sequence of arrivals, flush deadlines, failures and a final
        stop. The deferred flush runs only on a graceful stop. */
    method Consume(flushOnStop: bool)
      requires Valid() && pending == [] && inHand == None && batchSize >= 1
      modifies this, storage, consumer
      ensures Valid()
      ensures forall q :: 0 <= q ==>
        var s := Proto(q);
        && s.committed < |s.log| && Durable(s.db) < |s.log|
        && (forall o :: 0 <= o <= s.committed ==> Settled(s, o))
        && (Regular(kind, s.log) ==> s.db.tables == Replay(kind, s.log, Durable(s.db) + 1))
    {
      var rounds :| 0 <= rounds;
      for i := 0 to rounds
        invariant Valid() && inHand == None && |pending| < batchSize
      {
        var deadline: bool := *;
        var q: int := *;
        if deadline {
          if pending != [] {
            var ok := FlushBatch();
            if !ok { break; }
          }
        } else if 0 <= q && 0 <= consumer.Position(q) < |consumer.Log(q)| {
          var ok := OneMessage(q);
          if !ok { break; }
        }
      }
      if flushOnStop && pending != [] {
        var _ := FlushBatch();
      }
      Summary();
    }

    lemma Summary()
      requires Valid()
      ensures forall q :: 0 <= q ==>
        var s := Proto(q);
        && s.committed < |s.log| && Durable(s.db) < |s.log|
        && (forall o :: 0 <= o <= s.committed ==> Settled(s, o))
        && (Regular(kind, s.log) ==> s.db.tables == Replay(kind, s.log, Durable(s.db) + 1))
    {
      forall q | 0 <= q
        ensures var s := Proto(q);
          && s.committed < |s.log| && Durable(s.db) < |s.log|
          && (forall o :: 0 <= o <= s.committed ==> Settled(s, o))
          && (Regular(kind, s.log) ==> s.db.tables == Replay(kind, s.log, Durable(s.db) + 1))
      {
        assert Good(Proto(q));
      }
    }

    lemma BatchIsBelow()
      requires Valid() && pending != []
      ensures pending[|pending| - 1].offset < View(pendingPartition).next
    {
      var s := Proto(pendingPartition);
      assert Good(s);
      assert RecordOK(s, s.workers[0], |pending| - 1);
    }

    /** One fetched message through the loop body; false when the worker must stop. */
    method OneMessage(q: int) returns (ok: bool)
      requires Valid() && inHand == None && |pending| < batchSize
      requires 0 <= q && 0 <= consumer.Position(q) < |consumer.Log(q)|
      modifies this, storage, consumer
      ensures Valid()
      ensures ok ==> inHand == None && |pending| < batchSize
    {
      var offset := consumer.Position(q);
      var p := FetchInto(q);
      if pending != [] && pendingPartition != q {
        ok := FlushBatch();
        if !ok { return; }
      }
      var cancelled: bool := *;
      if cancelled { return false; }
      ok := TakeMessage(q, offset, p);
    }

    /** The second half: load progress, then batch the message or dead-letter it. */
    method TakeMessage(q: int, offset: int, p: Payload) returns (ok: bool)
      requires Valid() && inHand == Some(q) && 0 <= q && |pending| < batchSize
      requires 0 <= offset < |consumer.Log(q)| && p == consumer.Log(q)[offset] && consumer.Position(q) == offset + 1
      requires pending == [] || pendingPartition == q
      modifies this, storage, consumer`committed
      ensures Valid()
      ensures ok ==> inHand == None && |pending| < batchSize
    {
      EnsureProgress(q);
      var decoded := Handle(q, offset, p);
      ok := true;
      if !decoded {
        if pending != [] {
          BatchIsBelow();
          ok := FlushBatch();
          if !ok { return; }
        }
        DeadLetter(q, offset);
      } else if |pending| >= batchSize {
        ok := FlushBatch();
      }
    }

    method FetchInto(q: int) returns (p: Payload)
      requires Valid() && inHand == None
      requires 0 <= q && 0 <= consumer.Position(q) < |consumer.Log(q)|
      modifies this`inHand, consumer`position
      ensures Valid() && inHand == Some(q)
      ensures p == consumer.Log(q)[old(consumer.Position(q))] && consumer.Position(q) == old(consumer.Position(q)) + 1
    {
      p := consumer.Fetch(q);
      inHand := Some(q);
      forall r | 0 <= r
        ensures Good(Proto(r))
      {
        assert Proto(r) == old(Proto(r));
      }
    }
  }
}
