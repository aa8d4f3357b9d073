/** What the replay of a log leaves in the tables, in terms of the messages alone. */
module FactLaws {
  import opened MarketModel
  import opened FactStore
  import opened Ingestion
  import DeltaGate
  import KlineGuard

  // ---- trades -----------------------------------------------------------------------

  predicate IsTrade(p: Payload) {
    p.Carries? && p.fact.TradeFact?
  }

  /** A trade is kept if it has no exchange id, or is the first message with its id. */
  predicate KeepsTrade(log: seq<Payload>, o: int)
    requires 0 <= o < |log|
  {
    && IsTrade(log[o])
    && (log[o].fact.trade.rawTradeID == "" ||
        forall q :: 0 <= q < o && IsTrade(log[q]) ==> log[q].fact.trade.rawTradeID != log[o].fact.trade.rawTradeID)
  }

  /** The trade table: exactly the kept trades, each under its own offset. */
  ghost predicate HoldsTrades(table: map<int, Trade>, log: seq<Payload>, n: int)
    requires n <= |log|
  {
    && (forall o :: o in table <==> 0 <= o < n && KeepsTrade(log, o))
    && (forall o :: o in table ==> table[o] == log[o].fact.trade)
  }

  /** The first message with an exchange id is kept. */
  lemma {:induction false} FirstWithID(log: seq<Payload>, q: int, id: string) returns (f: int)
    requires 0 <= q < |log| && IsTrade(log[q]) && log[q].fact.trade.rawTradeID == id
    ensures 0 <= f <= q && KeepsTrade(log, f) && log[f].fact.trade.rawTradeID == id
    decreases q
  {
    if p :| 0 <= p < q && IsTrade(log[p]) && log[p].fact.trade.rawTradeID == id {
      f := FirstWithID(log, p, id);
    } else {
      f := q;
    }
  }

  /** For every log: a trade is stored exactly if its exchange id is empty or no earlier trade of the log
      has it, and what is stored at an offset is the trade at that offset. */
  lemma {:induction false} ReplayOfTrades(log: seq<Payload>, n: int)
    requires 0 <= n <= |log|
    ensures HoldsTrades(Replay(TradeKind, log, n).trades, log, n)
    decreases n
  {
    if n > 0 {
      ReplayOfTrades(log, n - 1);
      if IsTrade(log[n - 1]) {
        InsertKeepsLaw(log, n - 1, Replay(TradeKind, log, n - 1).trades);
      }
    }
  }

  lemma InsertKeepsLaw(log: seq<Payload>, n: int, table: map<int, Trade>)
    requires 0 <= n < |log| && HoldsTrades(table, log, n) && IsTrade(log[n])
    ensures HoldsTrades(InsertTrade(table, n, log[n].fact.trade), log, n + 1)
  {
    var id := log[n].fact.trade.rawTradeID;
    if id != "" {
      forall q | 0 <= q < n && IsTrade(log[q]) && log[q].fact.trade.rawTradeID == id
        ensures exists o :: o in table && table[o].rawTradeID == id
      {
        var f := FirstWithID(log, q, id);
        assert f in table && table[f].rawTradeID == id;
      }
    }
  }

  // ---- klines -----------------------------------------------------------------------

  /** The candlesticks at the offsets below `n`, in order. */
  function KlinesOf(log: seq<Payload>, n: int): seq<Kline>
    requires n <= |log|
    decreases n
  {
    if n <= 0 then []
    else
      KlinesOf(log, n - 1) +
      if log[n - 1].Carries? && log[n - 1].fact.KlineFact? then [log[n - 1].fact.kline] else []
  }

  lemma {:induction false} ReplayOfKlines(log: seq<Payload>, n: int)
    requires 0 <= n <= |log|
    ensures Replay(KlineKind, log, n).klines == KlineGuard.UpsertTableAll(map[], KlinesOf(log, n))
    decreases n
  {
    if n > 0 {
      ReplayOfKlines(log, n - 1);
      KlineStep(log, n - 1);
      KlinesStep(log, n - 1, KlinesOf(log, n - 1), KlinesOf(log, n));
    }
  }

  /** One more message, on the side of the plain upserts. */
  lemma KlinesStep(log: seq<Payload>, n: int, ks: seq<Kline>, more: seq<Kline>)
    requires 0 <= n < |log|
    requires more == ks + if log[n].Carries? && log[n].fact.KlineFact? then [log[n].fact.kline] else []
    ensures KlineGuard.UpsertTableAll(map[], more) ==
      if log[n].Carries? && log[n].fact.KlineFact?
      then KlineGuard.UpsertTable(KlineGuard.UpsertTableAll(map[], ks), log[n].fact.kline)
      else KlineGuard.UpsertTableAll(map[], ks)
  {
    if log[n].Carries? && log[n].fact.KlineFact? {
      UpsertMore(map[], ks, log[n].fact.kline);
    } else {
      assert more == ks;
    }
  }

  lemma KlineStep(log: seq<Payload>, n: int)
    requires 0 <= n < |log|
    ensures Replay(KlineKind, log, n + 1).klines ==
      if log[n].Carries? && log[n].fact.KlineFact?
      then KlineGuard.UpsertTable(Replay(KlineKind, log, n).klines, log[n].fact.kline)
      else Replay(KlineKind, log, n).klines
  {
  }

  lemma UpsertMore(table: map<KlineKey, Kline>, ks: seq<Kline>, k: Kline)
    ensures KlineGuard.UpsertTableAll(table, ks + [k]) ==
            KlineGuard.UpsertTable(KlineGuard.UpsertTableAll(table, ks), k)
  {
    assert (ks + [k])[..|ks|] == ks;
  }

  /** The row of one candlestick in closed form, for every log: absent without a message for its key;
      otherwise the first of the largest revision among the closed messages if one of them was not
      behind anything before it, else the last of the largest revision. */
  lemma ReplayedKline(log: seq<Payload>, n: int, key: KlineKey) returns (w: nat)
    requires 0 <= n <= |log|
    ensures var ks := KlineGuard.WithKey(KlinesOf(log, n), key);
      var row := KlineGuard.Lookup(Replay(KlineKind, log, n).klines, key);
      if ks == [] then row == None
      else
        && w < |ks| && row == Some(ks[w])
        && if exists i: nat :: KlineGuard.Enters(ks, i) then KlineGuard.FirstLargestClosed(ks, w)
           else KlineGuard.LastLargestOpen(ks, w)
  {
    ReplayOfKlines(log, n);
    KlineGuard.TableIsRowwise(map[], KlinesOf(log, n), key);
    var ks := KlineGuard.WithKey(KlinesOf(log, n), key);
    w := 0;
    if ks != [] {
      w := KlineGuard.StoredRow(ks);
    }
  }

  // ---- deltas -----------------------------------------------------------------------

  predicate IsDelta(p: Payload) {
    p.Carries? && p.fact.DeltaFact?
  }

  /** `id` is the terminal id of every delta of the log. */
  ghost predicate Numbers(log: seq<Payload>, id: OrderBookDelta -> int) {
    forall o :: 0 <= o < |log| && IsDelta(log[o]) ==>
      DeltaGate.DeltaTerminal(log[o].fact.delta) == Some(id(log[o].fact.delta))
  }

  /** The delta at `o` is above every earlier one. */
  predicate IsPeak(log: seq<Payload>, id: OrderBookDelta -> int, o: int)
    requires 0 <= o < |log|
  {
    && IsDelta(log[o])
    && forall q :: 0 <= q < o && IsDelta(log[q]) ==> id(log[q].fact.delta) < id(log[o].fact.delta)
  }

  lemma {:induction false} HighWaterIs(log: seq<Payload>, id: OrderBookDelta -> int, n: int)
    requires Numbers(log, id) && 0 <= n <= |log|
    ensures var high := HighWater(DeltaKind, log, n);
      && (forall q :: 0 <= q < n && IsDelta(log[q]) ==> high.Some? && id(log[q].fact.delta) <= high.value)
      && (high.Some? ==> exists q :: 0 <= q < n && IsDelta(log[q]) && id(log[q].fact.delta) == high.value)
    decreases n
  {
    if n > 0 {
      HighWaterIs(log, id, n - 1);
      if IsDelta(log[n - 1]) {
        assert id(log[n - 1].fact.delta) == id(log[n - 1].fact.delta);
      }
    }
  }

  lemma CountsIsPeak(log: seq<Payload>, id: OrderBookDelta -> int, o: int)
    requires Numbers(log, id) && 0 <= o < |log|
    ensures Counts(DeltaKind, log, o) <==> IsPeak(log, id, o)
  {
    HighWaterIs(log, id, o);
  }

  /** The rows are the peaks below `n`, each under its own offset, in order and rising. */
  ghost predicate HoldsPeaks(rows: seq<(int, OrderBookDelta)>, log: seq<Payload>, id: OrderBookDelta -> int, n: int)
    requires n <= |log|
  {
    && (forall i :: 0 <= i < |rows| ==>
          0 <= rows[i].0 < n && IsPeak(log, id, rows[i].0) && rows[i].1 == log[rows[i].0].fact.delta)
    && (forall o :: 0 <= o < n && IsPeak(log, id, o) ==> (o, log[o].fact.delta) in rows)
    && (forall i, j :: 0 <= i < j < |rows| ==> rows[i].0 < rows[j].0 && id(rows[i].1) < id(rows[j].1))
  }

  function PeaksOf(log: seq<Payload>, id: OrderBookDelta -> int, n: int): seq<(int, OrderBookDelta)>
    requires n <= |log|
    decreases n
  {
    if n <= 0 then []
    else PeaksOf(log, id, n - 1) + if IsPeak(log, id, n - 1) then [(n - 1, log[n - 1].fact.delta)] else []
  }

  lemma {:induction false} ReplayIsPeaks(log: seq<Payload>, id: OrderBookDelta -> int, n: int)
    requires Numbers(log, id) && 0 <= n <= |log|
    ensures Replay(DeltaKind, log, n).deltas == PeaksOf(log, id, n)
    decreases n
  {
    if n > 0 {
      ReplayIsPeaks(log, id, n - 1);
      DeltaStep(log, id, n - 1);
    }
  }

  lemma {:induction false} PeaksHold(log: seq<Payload>, id: OrderBookDelta -> int, n: int)
    requires 0 <= n <= |log|
    ensures HoldsPeaks(PeaksOf(log, id, n), log, id, n)
    decreases n
  {
    if n > 0 {
      PeaksHold(log, id, n - 1);
      if IsPeak(log, id, n - 1) {
        NextPeak(PeaksOf(log, id, n - 1), log, id, n - 1);
      } else {
        NoPeak(PeaksOf(log, id, n - 1), log, id, n - 1);
      }
    }
  }

  lemma ReplayOfDeltas(log: seq<Payload>, id: OrderBookDelta -> int, n: int)
    requires Numbers(log, id) && 0 <= n <= |log|
    ensures HoldsPeaks(Replay(DeltaKind, log, n).deltas, log, id, n)
  {
    ReplayIsPeaks(log, id, n);
    PeaksHold(log, id, n);
  }

  lemma DeltaStep(log: seq<Payload>, id: OrderBookDelta -> int, n: int)
    requires Numbers(log, id) && 0 <= n < |log|
    ensures Replay(DeltaKind, log, n + 1).deltas ==
      if IsPeak(log, id, n) then Replay(DeltaKind, log, n).deltas + [(n, log[n].fact.delta)]
      else Replay(DeltaKind, log, n).deltas
  {
    CountsIsPeak(log, id, n);
  }

  lemma NextPeak(rows: seq<(int, OrderBookDelta)>, log: seq<Payload>, id: OrderBookDelta -> int, n: int)
    requires 0 <= n < |log| && HoldsPeaks(rows, log, id, n) && IsPeak(log, id, n)
    ensures HoldsPeaks(rows + [(n, log[n].fact.delta)], log, id, n + 1)
  {
    var more := rows + [(n, log[n].fact.delta)];
    assert more[|rows|] in more && forall x :: x in rows ==> x in more;
    forall i | 0 <= i < |rows|
      ensures id(rows[i].1) < id(log[n].fact.delta)
    {
      assert IsPeak(log, id, rows[i].0);
    }
  }

  lemma NoPeak(rows: seq<(int, OrderBookDelta)>, log: seq<Payload>, id: OrderBookDelta -> int, n: int)
    requires 0 <= n < |log| && HoldsPeaks(rows, log, id, n) && !IsPeak(log, id, n)
    ensures HoldsPeaks(rows, log, id, n + 1)
  {
  }

  // ---- which field numbers the deltas -----------------------------------------------

  ghost predicate AllHaveUpdateID(log: seq<Payload>) {
    forall o :: 0 <= o < |log| && IsDelta(log[o]) ==> log[o].fact.delta.lastUpdateID.Some?
  }

  ghost predicate OnlySequences(log: seq<Payload>) {
    forall o :: 0 <= o < |log| && IsDelta(log[o]) ==>
      log[o].fact.delta.lastUpdateID.None? && log[o].fact.delta.sequence.Some?
  }

  function UpdateID(d: OrderBookDelta): int {
    if d.lastUpdateID.Some? then d.lastUpdateID.value else 0
  }

  function SequenceOf(d: OrderBookDelta): int {
    if d.sequence.Some? then d.sequence.value else 0
  }

  /** Last update ids go first: where every delta has one, the sequences do not matter. Where none has,
      sequences decide. */
  lemma FieldsNumber(log: seq<Payload>)
    ensures AllHaveUpdateID(log) ==> Numbers(log, UpdateID)
    ensures OnlySequences(log) ==> Numbers(log, SequenceOf)
    ensures AllHaveUpdateID(log) || OnlySequences(log) ==> Terminals(log)
  {
  }

  /** What the replay stores of the deltas, by field: exactly those whose last update id is above every
      earlier one, in order; or the same for sequences, where there are no last update ids. */
  lemma ReplayOfDeltasByField(log: seq<Payload>, n: int)
    requires 0 <= n <= |log|
    ensures AllHaveUpdateID(log) ==> HoldsPeaks(Replay(DeltaKind, log, n).deltas, log, UpdateID, n)
    ensures OnlySequences(log) ==> HoldsPeaks(Replay(DeltaKind, log, n).deltas, log, SequenceOf, n)
  {
    FieldsNumber(log);
    if AllHaveUpdateID(log) {
      ReplayOfDeltas(log, UpdateID, n);
    }
    if OnlySequences(log) {
      ReplayOfDeltas(log, SequenceOf, n);
    }
  }
}
