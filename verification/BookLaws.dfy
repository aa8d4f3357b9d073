/** What the book's operations do, price by price and delta by delta, in terms of the message fields
    alone. */
module BookLaws {
  import opened MarketModel
  import opened OrderBook
  import opened OrderBookProofs
  import opened BookExport

  // ---- levels -----------------------------------------------------------------------

  predicate Mentions(ls: seq<PriceLevel>, p: string) {
    exists i :: 0 <= i < |ls| && ls[i].price == p
  }

  /** Level `i` is the last one with price `p`. */
  predicate LastAt(ls: seq<PriceLevel>, p: string, i: nat) {
    i < |ls| && ls[i].price == p && forall j :: i < j < |ls| ==> ls[j].price != p
  }

  /** The side shows quantity `q` at price `p`; a zero text means that there is no level. */
  predicate Shows(side: map<string, string>, p: string, q: string) {
    if q == "0" || q == "0.0" then p !in side else p in side && side[p] == q
  }

  predicate SameAt(side: map<string, string>, other: map<string, string>, p: string) {
    (p in side <==> p in other) && (p in side ==> side[p] == other[p])
  }

  /** The quantity of the last level with price `p`, scanning from the end. */
  function LastWord(ls: seq<PriceLevel>, p: string): Option<string> {
    if ls == [] then None
    else if ls[|ls| - 1].price == p then Some(ls[|ls| - 1].quantity)
    else LastWord(ls[..|ls| - 1], p)
  }

  lemma {:induction false} LastWordAt(ls: seq<PriceLevel>, p: string, i: nat)
    requires LastAt(ls, p, i)
    ensures LastWord(ls, p) == Some(ls[i].quantity)
  {
    if i < |ls| - 1 {
      LastWordAt(ls[..|ls| - 1], p, i);
    }
  }

  lemma {:induction false} NoWord(ls: seq<PriceLevel>, p: string)
    requires forall i :: 0 <= i < |ls| ==> ls[i].price != p
    ensures LastWord(ls, p).None?
  {
    if ls != [] {
      NoWord(ls[..|ls| - 1], p);
    }
  }

  /** With nothing said about a price its level stays; otherwise the last word shows. */
  predicate Said(after: map<string, string>, before: map<string, string>, p: string, word: Option<string>) {
    if word.None? then SameAt(after, before, p) else Shows(after, p, word.value)
  }

  lemma {:induction false} LastWordShows(side: map<string, string>, ls: seq<PriceLevel>, p: string)
    ensures Said(SetLevels(side, ls), side, p, LastWord(ls, p))
  {
    if ls != [] {
      LastWordShows(side, ls[..|ls| - 1], p);
    }
  }

  /** Price by price: a price that is not mentioned keeps its level; a mentioned one shows the quantity
      of its last mention, a zero deleting it. */
  lemma LevelsAt(side: map<string, string>, ls: seq<PriceLevel>, p: string)
    ensures !Mentions(ls, p) ==> SameAt(SetLevels(side, ls), side, p)
    ensures forall i: nat :: LastAt(ls, p, i) ==> Shows(SetLevels(side, ls), p, ls[i].quantity)
  {
    LastWordShows(side, ls, p);
    if !Mentions(ls, p) {
      NoWord(ls, p);
    }
    forall i: nat | LastAt(ls, p, i)
      ensures LastWord(ls, p) == Some(ls[i].quantity)
    {
      LastWordAt(ls, p, i);
    }
  }

  /** A delta sets bids from its bids and asks from its asks, price by price, takes over its own last
      update id, and moves the sequence only if it carries one. */
  lemma DeltaAt(b: Book, d: OrderBookDelta, p: string)
    ensures Said(ApplyDelta(b, d).bids, b.bids, p, LastWord(d.bids, p))
    ensures Said(ApplyDelta(b, d).asks, b.asks, p, LastWord(d.asks, p))
    ensures ApplyDelta(b, d).lastUpdateID == d.lastUpdateID
    ensures ApplyDelta(b, d).sequence == if d.sequence.Some? then d.sequence else b.sequence
  {
    LastWordShows(b.bids, d.bids, p);
    LastWordShows(b.asks, d.asks, p);
  }

  /** The last word of a list of deltas on a price, on the side of the bids. */
  function LastBid(ds: seq<OrderBookDelta>, p: string): Option<string> {
    if ds == [] then None
    else if LastWord(ds[|ds| - 1].bids, p).Some? then LastWord(ds[|ds| - 1].bids, p)
    else LastBid(ds[..|ds| - 1], p)
  }

  function LastAsk(ds: seq<OrderBookDelta>, p: string): Option<string> {
    if ds == [] then None
    else if LastWord(ds[|ds| - 1].asks, p).Some? then LastWord(ds[|ds| - 1].asks, p)
    else LastAsk(ds[..|ds| - 1], p)
  }

  /** The folded book, price by price: the last delta that mentions a price on a side decides its level
      there; a price never mentioned is as it was at the start. */
  lemma {:induction false} FoldAt(b: Book, ds: seq<OrderBookDelta>, p: string)
    ensures Said(Fold(b, ds).bids, b.bids, p, LastBid(ds, p))
    ensures Said(Fold(b, ds).asks, b.asks, p, LastAsk(ds, p))
    ensures ds != [] ==> Fold(b, ds).lastUpdateID == ds[|ds| - 1].lastUpdateID
  {
    if ds != [] {
      var front := ds[..|ds| - 1];
      FoldAt(b, front, p);
      DeltaAt(Fold(b, front), ds[|ds| - 1], p);
    }
  }

  /** Level `i` is the last one with price `p` whose quantity is not a zero text. */
  predicate LastFilled(ls: seq<PriceLevel>, p: string, i: nat) {
    && i < |ls| && ls[i].price == p && ls[i].quantity != "0" && ls[i].quantity != "0.0"
    && forall j :: i < j < |ls| && ls[j].price == p ==> ls[j].quantity == "0" || ls[j].quantity == "0.0"
  }

  /** A loaded side, price by price: the last filled level with that price, or nothing. */
  lemma {:induction false} LoadedAt(ls: seq<PriceLevel>, p: string)
    ensures p in LoadLevels(ls) <==> exists i: nat :: LastFilled(ls, p, i)
    ensures forall i: nat :: LastFilled(ls, p, i) ==> p in LoadLevels(ls) && LoadLevels(ls)[p] == ls[i].quantity
  {
    if ls != [] {
      var n := |ls| - 1;
      var front := ls[..n];
      LoadedAt(front, p);
      assert forall j :: 0 <= j < n ==> front[j] == ls[j];
      if ls[n].price == p && ls[n].quantity != "0" && ls[n].quantity != "0.0" {
        assert LastFilled(ls, p, n);
        assert forall i: nat :: LastFilled(ls, p, i) ==> i == n;
      } else {
        assert forall i: nat :: LastFilled(ls, p, i) <==> LastFilled(front, p, i);
      }
    }
  }

  /** A snapshot loads its bids as bids and its asks as asks, takes over the sequence and forgets the last
      update id. */
  lemma SnapshotAt(s: OrderBookSnapshot, p: string)
    ensures var b := FromSnapshot(s);
      && (p in b.bids <==> exists i: nat :: LastFilled(s.bids, p, i))
      && (p in b.asks <==> exists i: nat :: LastFilled(s.asks, p, i))
      && (forall i: nat :: LastFilled(s.bids, p, i) ==> p in b.bids && b.bids[p] == s.bids[i].quantity)
      && (forall i: nat :: LastFilled(s.asks, p, i) ==> p in b.asks && b.asks[p] == s.asks[i].quantity)
      && b.sequence == s.sequence && b.lastUpdateID == None
  {
    LoadedAt(s.bids, p);
    LoadedAt(s.asks, p);
  }

  // ---- contiguity -------------------------------------------------------------------

  /** Sequences decide first: where the deltas carry them, whatever the update ids, contiguous means
      counting up by one, from the book's sequence if it has one. */
  lemma {:induction false} ContiguousBySequence(b: Book, ds: seq<OrderBookDelta>)
    requires forall i :: 0 <= i < |ds| ==> ds[i].sequence.Some?
    ensures Contiguous(b, ds) <==>
      && (ds != [] && b.sequence.Some? ==> ds[0].sequence.value == b.sequence.value + 1)
      && (forall i :: 1 <= i < |ds| ==> ds[i].sequence.value == ds[i - 1].sequence.value + 1)
    ensures ds != [] ==> Fold(b, ds).sequence == ds[|ds| - 1].sequence
  {
    if ds != [] {
      var front := ds[..|ds| - 1];
      assert forall j :: 0 <= j < |front| ==> front[j] == ds[j];
      ContiguousBySequence(b, front);
    }
  }

  /** First update ids decide next, whatever the previous update ids: each delta begins one after the last
      update id of its predecessor. */
  lemma {:induction false} ContiguousByFirstUpdateID(b: Book, ds: seq<OrderBookDelta>)
    requires forall i :: 0 <= i < |ds| ==> ds[i].sequence.None? && ds[i].firstUpdateID.Some? && ds[i].lastUpdateID.Some?
    ensures Contiguous(b, ds) <==>
      && (ds != [] && b.lastUpdateID.Some? ==> ds[0].firstUpdateID.value == b.lastUpdateID.value + 1)
      && (forall i :: 1 <= i < |ds| ==> ds[i].firstUpdateID.value == ds[i - 1].lastUpdateID.value + 1)
    ensures ds != [] ==> Fold(b, ds).lastUpdateID == ds[|ds| - 1].lastUpdateID
  {
    if ds != [] {
      var front := ds[..|ds| - 1];
      assert forall j :: 0 <= j < |front| ==> front[j] == ds[j];
      ContiguousByFirstUpdateID(b, front);
    }
  }

  /** Previous update ids decide last: each delta names the last update id of its predecessor. */
  lemma {:induction false} ContiguousByPreviousUpdateID(b: Book, ds: seq<OrderBookDelta>)
    requires forall i :: 0 <= i < |ds| ==> ds[i].sequence.None? && ds[i].firstUpdateID.None?
    requires forall i :: 0 <= i < |ds| ==> ds[i].prevUpdateID.Some? && ds[i].lastUpdateID.Some?
    ensures Contiguous(b, ds) <==>
      && (ds != [] && b.lastUpdateID.Some? ==> ds[0].prevUpdateID.value == b.lastUpdateID.value)
      && (forall i :: 1 <= i < |ds| ==> ds[i].prevUpdateID.value == ds[i - 1].lastUpdateID.value)
    ensures ds != [] ==> Fold(b, ds).lastUpdateID == ds[|ds| - 1].lastUpdateID
  {
    if ds != [] {
      var front := ds[..|ds| - 1];
      assert forall j :: 0 <= j < |front| ==> front[j] == ds[j];
      ContiguousByPreviousUpdateID(b, front);
    }
  }

  /** Deltas that carry none of the three always follow. */
  lemma {:induction false} ContiguousWithoutIDs(b: Book, ds: seq<OrderBookDelta>)
    requires forall i :: 0 <= i < |ds| ==> ds[i].sequence.None? && ds[i].firstUpdateID.None? && ds[i].prevUpdateID.None?
    ensures Contiguous(b, ds)
  {
    if ds != [] {
      var front := ds[..|ds| - 1];
      assert forall j :: 0 <= j < |front| ==> front[j] == ds[j];
      ContiguousWithoutIDs(b, front);
    }
  }

  // ---- loading a snapshot over a buffer ----------------------------------------------

  /** The delta carries a sequence at or below the snapshot's. */
  predicate Covered(s: OrderBookSnapshot, d: OrderBookDelta) {
    s.sequence.Some? && d.sequence.Some? && d.sequence.value <= s.sequence.value
  }

  /** The first `n` buffered deltas are covered by the snapshot and the next one is not. */
  predicate CoveredHead(s: OrderBookSnapshot, ds: seq<OrderBookDelta>, n: nat) {
    && n <= |ds| && (forall i :: 0 <= i < n ==> Covered(s, ds[i]))
    && (n < |ds| ==> !Covered(s, ds[n]))
  }

  lemma {:induction false} HeadIsStale(s: OrderBookSnapshot, ds: seq<OrderBookDelta>, n: nat)
    requires CoveredHead(s, ds, n)
    ensures StaleCount(FromSnapshot(s), ds) == n
    decreases n
  {
    if n > 0 {
      HeadIsStale(s, ds[1..], n - 1);
    }
  }

  /** An ordered snapshot over any buffer: the covered head is dropped, the rest is applied up to the
      first delta that does not follow, and success is reported if and only if all of it follows. Either
      way the book is ready and the buffer empty. */
  lemma LoadOutcome(rank: Rank, st: BookState, s: OrderBookSnapshot, n: nat, m: nat)
    requires SnapshotOrdered(rank, s) && CoveredHead(s, st.pending, n) && n <= m <= |st.pending|
    requires Contiguous(FromSnapshot(s), st.pending[n..m])
    requires m < |st.pending| ==> !Contiguous(FromSnapshot(s), st.pending[n..m + 1])
    ensures OnSnapshot(rank, st, s)
         == (BookState(true, Fold(FromSnapshot(s), st.pending[n..m]), []), m == |st.pending|)
  {
    var ds := st.pending;
    HeadIsStale(s, ds, n);
    var b, ahead := FromSnapshot(s), ds[n..];
    assert ahead[..m - n] == ds[n..m];
    assert m < |ds| ==> ahead[..m - n + 1] == ds[n..m + 1];
    LongestRun(b, ahead, m - n);
  }

  lemma {:induction false} LongestRun(b: Book, ds: seq<OrderBookDelta>, n: nat)
    requires n <= |ds| && Contiguous(b, ds[..n]) && (n < |ds| ==> !Contiguous(b, ds[..n + 1]))
    ensures ContiguousCount(b, ds) == n
    decreases n
  {
    if ds != [] {
      var d, rest := ds[0], ds[1..];
      if n == 0 {
        assert ds[..1] == [d];
        FoldOne(b, d);
      } else {
        assert ds[..n] == [d] + rest[..n - 1];
        ContiguousFrom(b, d, rest[..n - 1]);
        if n < |ds| {
          assert ds[..n + 1] == [d] + rest[..n];
          ContiguousFrom(b, d, rest[..n]);
        }
        LongestRun(ApplyDelta(b, d), rest, n - 1);
      }
    }
  }

  // ---- export -----------------------------------------------------------------------

  /** An exported side has every level once: bids from the highest price down, asks from the lowest up. */
  lemma ExportRuns(rank: Rank, side: map<string, string>, ls: seq<PriceLevel>, i: nat, j: nat)
    requires i < j < |ls|
    ensures ExportOf(rank, side, true, ls) ==> rank(ls[i].price) >= rank(ls[j].price) && ls[i].price != ls[j].price
    ensures ExportOf(rank, side, false, ls) ==> rank(ls[i].price) <= rank(ls[j].price) && ls[i].price != ls[j].price
  {
    assert LevelOrder(rank, true)(ls[i], ls[j]) <==> rank(ls[i].price) >= rank(ls[j].price);
    assert LevelOrder(rank, false)(ls[i], ls[j]) <==> rank(ls[i].price) <= rank(ls[j].price);
    assert ls[i] in ls && ls[j] in ls;
  }

  /** A side is accepted exactly if neighbouring prices run the right way: bids down, asks up. */
  lemma OrderedExactly(rank: Rank, s: OrderBookSnapshot)
    ensures SnapshotOrdered(rank, s) <==>
      && (forall i, j :: 0 <= i < j < |s.bids| ==> rank(s.bids[i].price) >= rank(s.bids[j].price))
      && (forall i, j :: 0 <= i < j < |s.asks| ==> rank(s.asks[i].price) <= rank(s.asks[j].price))
  {
    if SnapshotOrdered(rank, s) {
      forall i, j | 0 <= i < j < |s.bids|
        ensures rank(s.bids[i].price) >= rank(s.bids[j].price)
      {
        BidsRun(rank, s.bids, i, j);
      }
      forall i, j | 0 <= i < j < |s.asks|
        ensures rank(s.asks[i].price) <= rank(s.asks[j].price)
      {
        AsksRun(rank, s.asks, i, j);
      }
    }
  }

  lemma {:induction false} BidsRun(rank: Rank, ls: seq<PriceLevel>, i: nat, j: nat)
    requires BidsOrdered(rank, ls) && i < j < |ls|
    ensures rank(ls[i].price) >= rank(ls[j].price)
    decreases j
  {
    if j > i + 1 {
      BidsRun(rank, ls, i, j - 1);
    }
  }

  lemma {:induction false} AsksRun(rank: Rank, ls: seq<PriceLevel>, i: nat, j: nat)
    requires AsksOrdered(rank, ls) && i < j < |ls|
    ensures rank(ls[i].price) <= rank(ls[j].price)
    decreases j
  {
    if j > i + 1 {
      AsksRun(rank, ls, i, j - 1);
    }
  }
}
