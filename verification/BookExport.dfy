/** Exporting the book: sorted, complete, and readable back as a snapshot. */
module BookExport {
  import opened MarketModel
  import opened OrderBook
  import opened OrderBookProofs
  import opened Sorting

  /** The comparator of `exportLevels`: bids descending, asks ascending. */
  function LevelOrder(rank: Rank, descending: bool): (PriceLevel, PriceLevel) -> bool {
    (x: PriceLevel, y: PriceLevel) =>
      if descending then rank(x.price) >= rank(y.price) else rank(x.price) <= rank(y.price)
  }

  /** `ls` lists each entry of `side` exactly once. */
  ghost predicate ListsSide(side: map<string, string>, ls: seq<PriceLevel>) {
    && Distinct(ls)
    && (forall l :: l in ls ==> l.price in side && side[l.price] == l.quantity)
    && (forall p :: p in side ==> PriceLevel(p, side[p]) in ls)
  }

  /** A sorted listing of every level. */
  ghost predicate ExportOf(rank: Rank, side: map<string, string>, descending: bool, ls: seq<PriceLevel>) {
    ListsSide(side, ls) && Sorted(LevelOrder(rank, descending), ls)
  }

  predicate NoZero(side: map<string, string>) {
    forall p :: p in side ==> !IsZero(side[p])
  }

  /** The levels that are actually there. */
  function NonZero(side: map<string, string>): map<string, string> {
    map p | p in side && !IsZero(side[p]) :: side[p]
  }

  /** The listing so far covers every level outside `todo`. */
  ghost predicate Collected(side: map<string, string>, todo: set<string>, ls: seq<PriceLevel>) {
    && Distinct(ls)
    && (forall l :: l in ls ==>
          l.price in side && l.price !in todo && side[l.price] == l.quantity && !IsZero(l.quantity))
    && (forall p :: p in side && p !in todo && !IsZero(side[p]) ==> PriceLevel(p, side[p]) in ls)
  }

  method CollectLevels(side: map<string, string>) returns (levels: seq<PriceLevel>)
    ensures ListsSide(NonZero(side), levels)
  {
    levels := [];
    var todo := side.Keys;
    while todo != {}
      invariant todo <= side.Keys && Collected(side, todo, levels)
      decreases |todo|
    {
      var price :| price in todo;
      todo := todo - {price};
      if side[price] == "0" || side[price] == "0.0" {
        continue;
      }
      levels := levels + [PriceLevel(price, side[price])];
    }
  }

  /** `exportLevels`: collect the map in whatever order it iterates, then sort. */
  method ExportLevels(rank: Rank, side: map<string, string>, descending: bool) returns (out: seq<PriceLevel>)
    ensures ExportOf(rank, NonZero(side), descending, out)
  {
    var levels := CollectLevels(side);
    var le := LevelOrder(rank, descending);
    out := SortBy(le, levels);
    SortBySorts(le, levels);
    SameElements(out, levels);
    DistinctKept(levels, out);
  }

  // ---- the book never stores a zero -------------------------------------------------

  lemma {:induction false} SetLevelsNoZero(side: map<string, string>, ls: seq<PriceLevel>)
    requires NoZero(side)
    ensures NoZero(SetLevels(side, ls))
  {
    if ls != [] {
      SetLevelsNoZero(side, ls[..|ls| - 1]);
    }
  }

  lemma {:induction false} LoadLevelsNoZero(ls: seq<PriceLevel>)
    ensures NoZero(LoadLevels(ls))
  {
    if ls != [] {
      LoadLevelsNoZero(ls[..|ls| - 1]);
    }
  }

  lemma {:induction false} ExplainedHasNoZero(snap: OrderBookSnapshot, ds: seq<OrderBookDelta>)
    ensures NoZero(Fold(FromSnapshot(snap), ds).bids) && NoZero(Fold(FromSnapshot(snap), ds).asks)
  {
    if ds == [] {
      LoadLevelsNoZero(snap.bids);
      LoadLevelsNoZero(snap.asks);
    } else {
      ExplainedHasNoZero(snap, ds[..|ds| - 1]);
      var b := Fold(FromSnapshot(snap), ds[..|ds| - 1]);
      SetLevelsNoZero(b.bids, ds[|ds| - 1].bids);
      SetLevelsNoZero(b.asks, ds[|ds| - 1].asks);
    }
  }

  // ---- determinism ------------------------------------------------------------------

  /** No two price texts of the side stand for the same number. */
  ghost predicate DistinctPrices(rank: Rank, side: map<string, string>) {
    forall p, q :: p in side && q in side && rank(p) == rank(q) ==> p == q
  }

  /** The export does not depend on map iteration order when no two price texts are
      numerically equal. */
  lemma ExportIsUnique(rank: Rank, side: map<string, string>, descending: bool, s: seq<PriceLevel>, t: seq<PriceLevel>)
    requires DistinctPrices(rank, side)
    requires ExportOf(rank, side, descending, s) && ExportOf(rank, side, descending, t)
    ensures s == t
  {
    SameListing(s, t);
    SortedIsUnique(LevelOrder(rank, descending), s, t);
  }

  // ---- round trip -------------------------------------------------------------------

  lemma {:induction false} LoadListed(side: map<string, string>, ls: seq<PriceLevel>)
    requires NoZero(side)
    requires forall l :: l in ls ==> l.price in side && side[l.price] == l.quantity
    ensures LoadLevels(ls) == map p | p in side && PriceLevel(p, side[p]) in ls :: side[p]
  {
    if ls != [] {
      var front, l := ls[..|ls| - 1], ls[|ls| - 1];
      assert ls == front + [l];
      LoadListed(side, front);
      assert l in ls;
      assert PriceLevel(l.price, side[l.price]) == l;
    }
  }

  /** Reading an exported side back gives the side. */
  lemma ExportedSideLoads(rank: Rank, side: map<string, string>, descending: bool, ls: seq<PriceLevel>)
    requires NoZero(side) && ExportOf(rank, side, descending, ls)
    ensures LoadLevels(ls) == side
  {
    LoadListed(side, ls);
  }

  /** A snapshot generated from any book without zero levels passes validation on a fresh
      state and restores the same bids, asks and sequence. */
  lemma GeneratedSnapshotRestores(rank: Rank, b: Book, s: OrderBookSnapshot)
    requires NoZero(b.bids) && NoZero(b.asks)
    requires s.sequence == b.sequence && ExportOf(rank, b.bids, true, s.bids) && ExportOf(rank, b.asks, false, s.asks)
    ensures SnapshotOrdered(rank, s)
    ensures OnSnapshot(rank, EMPTY_STATE, s) == (BookState(true, b.(lastUpdateID := None), []), true)
  {
    ExportedSideLoads(rank, b.bids, true, s.bids);
    ExportedSideLoads(rank, b.asks, false, s.asks);
    assert BidsOrdered(rank, s.bids) by {
      forall i | 1 <= i < |s.bids|
        ensures rank(s.bids[i - 1].price) >= rank(s.bids[i].price)
      {
        assert LevelOrder(rank, true)(s.bids[i - 1], s.bids[i]);
      }
    }
    assert AsksOrdered(rank, s.asks) by {
      forall i | 1 <= i < |s.asks|
        ensures rank(s.asks[i - 1].price) <= rank(s.asks[i].price)
      {
        assert LevelOrder(rank, false)(s.asks[i - 1], s.asks[i]);
      }
    }
    assert Drained(FromSnapshot(s), []) == [];
  }

  /** In particular every reachable ready book survives export and reload. */
  lemma ReachableBookRestores(rank: Rank, maxPending: int, es: seq<Event>, s: OrderBookSnapshot)
    requires var st := Play(rank, maxPending, EMPTY_STATE, es);
      && st.ready && s.sequence == st.book.sequence
      && ExportOf(rank, st.book.bids, true, s.bids) && ExportOf(rank, st.book.asks, false, s.asks)
    ensures OnSnapshot(rank, EMPTY_STATE, s)
         == (BookState(true, Play(rank, maxPending, EMPTY_STATE, es).book.(lastUpdateID := None), []), true)
  {
    ReachableIsExplained(rank, maxPending, es);
    var st := Play(rank, maxPending, EMPTY_STATE, es);
    var i: nat, lo: nat, hi: nat :| ExplainedBy(rank, maxPending, es, st, Taken(rank, maxPending, es), i, lo, hi);
    var before := Taken(rank, maxPending, es[..i]);
    ExplainedHasNoZero(es[i].snapshot, before[lo..hi] + Taken(rank, maxPending, es)[|before|..]);
    GeneratedSnapshotRestores(rank, st.book, s);
  }
}
