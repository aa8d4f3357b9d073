/** The fact tables and `WriteFactBatch` (`internal/storage/postgres.go`). The value-level
    part says what one transaction does to the tables of one input partition; the class
    runs it the way the source does, row by row. */
module FactStore {
  import opened MarketModel
  import KlineGuard

  datatype Row<T> = Row(inputID: string, partition: int, offset: int, value: T)

  datatype Progress = Progress(
    inputID: string,
    partition: int,
    durableOffset: int,
    lastRawEventID: string,
    lastUpdateID: Option<int>,
    lastSequence: Option<int>)

  datatype FactBatch = FactBatch(
    trades: seq<Row<Trade>>,
    klines: seq<Row<Kline>>,
    deltas: seq<Row<OrderBookDelta>>,
    progress: Progress)

  /** The three fact tables, restricted to one input partition. Trades are keyed by offset. */
  datatype Tables = Tables(
    trades: map<int, Trade>,
    klines: map<KlineKey, Kline>,
    deltas: seq<(int, OrderBookDelta)>)

  /** Everything the database holds for one input partition. */
  datatype Db = Db(tables: Tables, progress: Option<Progress>, poison: set<int>)

  const EMPTY_TABLES := Tables(map[], map[], [])
  const EMPTY_DB := Db(EMPTY_TABLES, None, {})

  function Durable(db: Db): int {
    if db.progress.None? then -1 else db.progress.value.durableOffset
  }

  // ---- validateFactBatch ------------------------------------------------------------

  function Count(nonEmpty: bool): nat {
    if nonEmpty then 1 else 0
  }

  predicate InPrefix<T>(r: Row<T>, p: Progress) {
    r.inputID == p.inputID && r.partition == p.partition && 0 <= r.offset <= p.durableOffset
  }

  ghost predicate RowsValid<T>(rows: seq<Row<T>>, p: Progress) {
    && (forall i :: 0 <= i < |rows| ==> InPrefix(rows[i], p))
    && (forall i, j :: 0 <= i < j < |rows| ==> rows[i].offset < rows[j].offset)
  }

  ghost predicate ValidBatch(b: FactBatch) {
    && b.progress.inputID != "" && b.progress.partition >= 0 && b.progress.durableOffset >= 0
    && Count(b.trades != []) + Count(b.klines != []) + Count(b.deltas != []) <= 1
    && RowsValid(b.trades, b.progress) && RowsValid(b.klines, b.progress) && RowsValid(b.deltas, b.progress)
  }

  method ValidateRows<T>(rows: seq<Row<T>>, p: Progress) returns (ok: bool)
    ensures ok <==> RowsValid(rows, p)
  {
    var previous := -1;
    for i := 0 to |rows|
      invariant RowsValid(rows[..i], p)
      invariant previous == if i == 0 then -1 else rows[i - 1].offset
    {
      var row := rows[i];
      if row.inputID != p.inputID || row.partition != p.partition {
        return false;
      }
      if row.offset < 0 || row.offset > p.durableOffset {
        return false;
      }
      if row.offset <= previous {
        return false;
      }
      previous := row.offset;
    }
    assert rows[..|rows|] == rows;
    return true;
  }

  method ValidateFactBatch(b: FactBatch) returns (ok: bool)
    ensures ok <==> ValidBatch(b)
  {
    var p := b.progress;
    if p.inputID == "" || p.partition < 0 || p.durableOffset < 0 {
      return false;
    }
    var kinds := 0;
    if |b.trades| > 0 { kinds := kinds + 1; }
    if |b.klines| > 0 { kinds := kinds + 1; }
    if |b.deltas| > 0 { kinds := kinds + 1; }
    if kinds > 1 {
      return false;
    }
    var t := ValidateRows(b.trades, p);
    if !t { return false; }
    var k := ValidateRows(b.klines, p);
    if !k { return false; }
    var d := ValidateRows(b.deltas, p);
    return d;
  }

  // ---- the *AfterOffset filters -----------------------------------------------------

  predicate IsNew<T>(r: Row<T>, p: Progress, durable: int) {
    r.inputID == p.inputID && r.partition == p.partition && durable < r.offset <= p.durableOffset
  }

  function AfterOffset<T>(rows: seq<Row<T>>, p: Progress, durable: int): seq<Row<T>> {
    if rows == [] then []
    else
      var front := AfterOffset(rows[..|rows| - 1], p, durable);
      if IsNew(rows[|rows| - 1], p, durable) then front + [rows[|rows| - 1]] else front
  }

  method RowsAfterOffset<T>(rows: seq<Row<T>>, p: Progress, durable: int) returns (out: seq<Row<T>>)
    ensures out == AfterOffset(rows, p, durable)
  {
    out := [];
    for i := 0 to |rows|
      invariant out == AfterOffset(rows[..i], p, durable)
    {
      assert rows[..i + 1][..i] == rows[..i];
      var row := rows[i];
      if row.inputID == p.inputID && row.partition == p.partition &&
         row.offset > durable && row.offset <= p.durableOffset {
        out := out + [row];
      }
    }
    assert rows[..|rows|] == rows;
  }

  // ---- row writes -------------------------------------------------------------------

  /** Does the table already hold this offset, or this exchange-supplied trade id? */
  predicate Conflicts(table: map<int, Trade>, offset: int, t: Trade) {
    || offset in table
    || (t.rawTradeID != "" && exists o :: o in table && table[o].rawTradeID == t.rawTradeID)
  }

  /** `INSERT ... ON CONFLICT DO NOTHING` under both unique keys. */
  function InsertTrade(table: map<int, Trade>, offset: int, t: Trade): map<int, Trade> {
    if Conflicts(table, offset, t) then table else table[offset := t]
  }

  function InsertTrades(table: map<int, Trade>, rows: seq<Row<Trade>>): map<int, Trade> {
    if rows == [] then table
    else
      var last := rows[|rows| - 1];
      InsertTrade(InsertTrades(table, rows[..|rows| - 1]), last.offset, last.value)
  }

  function UpsertKlines(table: map<KlineKey, Kline>, rows: seq<Row<Kline>>): map<KlineKey, Kline> {
    if rows == [] then table
    else KlineGuard.UpsertTable(UpsertKlines(table, rows[..|rows| - 1]), rows[|rows| - 1].value)
  }

  function CopyDeltas(table: seq<(int, OrderBookDelta)>, rows: seq<Row<OrderBookDelta>>): seq<(int, OrderBookDelta)> {
    if rows == [] then table
    else CopyDeltas(table, rows[..|rows| - 1]) + [(rows[|rows| - 1].offset, rows[|rows| - 1].value)]
  }

  method WriteTrades(table: map<int, Trade>, rows: seq<Row<Trade>>) returns (out: map<int, Trade>)
    ensures out == InsertTrades(table, rows)
  {
    out := table;
    for i := 0 to |rows|
      invariant out == InsertTrades(table, rows[..i])
    {
      assert rows[..i + 1][..i] == rows[..i];
      out := InsertTrade(out, rows[i].offset, rows[i].value);
    }
    assert rows[..|rows|] == rows;
  }

  method WriteKlines(table: map<KlineKey, Kline>, rows: seq<Row<Kline>>) returns (out: map<KlineKey, Kline>)
    ensures out == UpsertKlines(table, rows)
  {
    out := table;
    for i := 0 to |rows|
      invariant out == UpsertKlines(table, rows[..i])
    {
      assert rows[..i + 1][..i] == rows[..i];
      out := KlineGuard.UpsertTable(out, rows[i].value);
    }
    assert rows[..|rows|] == rows;
  }

  method WriteDeltas(table: seq<(int, OrderBookDelta)>, rows: seq<Row<OrderBookDelta>>)
    returns (out: seq<(int, OrderBookDelta)>)
    ensures out == CopyDeltas(table, rows)
  {
    out := table;
    for i := 0 to |rows|
      invariant out == CopyDeltas(table, rows[..i])
    {
      assert rows[..i + 1][..i] == rows[..i];
      out := out + [(rows[i].offset, rows[i].value)];
    }
    assert rows[..|rows|] == rows;
  }

  // ---- the transaction --------------------------------------------------------------

  function WriteNew(db: Db, b: FactBatch): Db {
    var d := Durable(db);
    Db(Tables(
         InsertTrades(db.tables.trades, AfterOffset(b.trades, b.progress, d)),
         UpsertKlines(db.tables.klines, AfterOffset(b.klines, b.progress, d)),
         CopyDeltas(db.tables.deltas, AfterOffset(b.deltas, b.progress, d))),
       Some(b.progress), db.poison)
  }

  /** What a committed `WriteFactBatch` leaves behind. */
  ghost function Write(db: Db, b: FactBatch): Db {
    if !ValidBatch(b) || b.progress.durableOffset <= Durable(db) then db else WriteNew(db, b)
  }

  /** A batch whose write was not acknowledged can be written again: the second write
      changes nothing. */
  lemma WriteIsIdempotent(db: Db, b: FactBatch)
    ensures Write(Write(db, b), b) == Write(db, b)
  {
  }

  lemma {:induction false} NewRows<T>(rows: seq<Row<T>>, p: Progress, durable: int)
    requires forall i :: 0 <= i < |rows| ==> InPrefix(rows[i], p)
    ensures forall r :: r in AfterOffset(rows, p, durable) <==> r in rows && r.offset > durable
  {
    if rows != [] {
      var front := rows[..|rows| - 1];
      NewRows(front, p, durable);
      assert rows == front + [rows[|rows| - 1]];
    }
  }

  lemma {:induction false} CopiedRows(table: seq<(int, OrderBookDelta)>, rows: seq<Row<OrderBookDelta>>, o: int,
                                      d: OrderBookDelta)
    ensures (o, d) in CopyDeltas(table, rows) <==>
      (o, d) in table || exists r :: r in rows && r.offset == o && r.value == d
    ensures table <= CopyDeltas(table, rows)
  {
    if rows != [] {
      var front, last := rows[..|rows| - 1], rows[|rows| - 1];
      CopiedRows(table, front, o, d);
      assert rows == front + [last] && last in rows;
    }
  }

  /** An accepted batch writes to one fact table at most and moves the durable offset to its own;
      one that brings nothing new changes nothing. */
  lemma AcceptedBatchIsConfined(db: Db, b: FactBatch)
    requires ValidBatch(b)
    ensures var before, after := db.tables, Write(db, b).tables;
      && (after.trades == before.trades || after.klines == before.klines)
      && (after.trades == before.trades || after.deltas == before.deltas)
      && (after.klines == before.klines || after.deltas == before.deltas)
    ensures Durable(Write(db, b)) ==
      if b.progress.durableOffset > Durable(db) then b.progress.durableOffset else Durable(db)
    ensures b.progress.durableOffset <= Durable(db) ==> Write(db, b) == db
  {
  }

  /** The delta table grows by exactly the batch's deltas beyond the durable offset. */
  lemma AcceptedDeltasAreStored(db: Db, b: FactBatch, o: int, d: OrderBookDelta)
    requires ValidBatch(b)
    ensures (o, d) in Write(db, b).tables.deltas <==>
      (o, d) in db.tables.deltas || exists r :: r in b.deltas && r.offset == o && r.value == d && o > Durable(db)
    ensures db.tables.deltas <= Write(db, b).tables.deltas
  {
    if b.progress.durableOffset <= Durable(db) {
      assert forall r :: r in b.deltas ==> r.offset <= Durable(db);
    } else {
      var rows := AfterOffset(b.deltas, b.progress, Durable(db));
      NewRows(b.deltas, b.progress, Durable(db));
      CopiedRows(db.tables.deltas, rows, o, d);
      assert Write(db, b).tables.deltas == CopyDeltas(db.tables.deltas, rows);
    }
  }

  /** The database of one input, as the runtime sees it: one set of tables per partition. */
  class PostgresStorage {
    var dbs: map<int, Db>

    constructor ()
      ensures dbs == map[]
    {
      dbs := map[];
    }

    function At(partition: int): Db
      reads this
    {
      if partition in dbs then dbs[partition] else EMPTY_DB
    }

    /** One transaction: lock the progress row, drop what is already durable, write the
        rest in order, advance the durable offset. */
    method WriteFactBatch(b: FactBatch) returns (ok: bool)
      modifies this
      ensures ok <==> ValidBatch(b)
      ensures At(b.progress.partition) == Write(old(At(b.progress.partition)), b)
      ensures forall q :: q != b.progress.partition ==> At(q) == old(At(q))
    {
      ok := ValidateFactBatch(b);
      if !ok {
        return;
      }
      var p := b.progress;
      var db := At(p.partition);
      var durable := Durable(db);
      if p.durableOffset <= durable {
        return;
      }
      var newTrades := RowsAfterOffset(b.trades, p, durable);
      var trades := WriteTrades(db.tables.trades, newTrades);
      var newKlines := RowsAfterOffset(b.klines, p, durable);
      var klines := WriteKlines(db.tables.klines, newKlines);
      var newDeltas := RowsAfterOffset(b.deltas, p, durable);
      var deltas := WriteDeltas(db.tables.deltas, newDeltas);
      dbs := dbs[p.partition := Db(Tables(trades, klines, deltas), Some(p), db.poison)];
    }

    method LoadStreamWriteProgress(partition: int) returns (progress: Option<Progress>)
      ensures progress == At(partition).progress
    {
      progress := At(partition).progress;
    }

    /** `INSERT ... ON CONFLICT DO NOTHING` into the dead-letter table. */
    method WritePoisonRecord(partition: int, offset: int)
      modifies this
      ensures At(partition) == old(At(partition)).(poison := old(At(partition)).poison + {offset})
      ensures forall q :: q != partition ==> At(q) == old(At(q))
    {
      var db := At(partition);
      dbs := dbs[partition := db.(poison := db.poison + {offset})];
    }
  }
}
