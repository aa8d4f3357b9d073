/** The order book behind uninterrupted callbacks: what a sequence of snapshots and deltas leaves. */
module BookFeed {
  import opened MarketModel
  import opened OrderBook
  import opened OrderBookProofs

  /** What reaches the book: a reference snapshot, or a delta from the callback. */
  datatype Arrived = Loaded(snapshot: OrderBookSnapshot) | Fed(delta: OrderBookDelta)

  function After(rank: Rank, maxPending: int, st: BookState, e: Arrived): BookState {
    match e
    case Loaded(snap) => OnSnapshot(rank, st, snap).0
    case Fed(d) => OnDelta(st, maxPending, d)
  }

  function Follow(rank: Rank, maxPending: int, es: seq<Arrived>): BookState {
    if es == [] then EMPTY_STATE else After(rank, maxPending, Follow(rank, maxPending, es[..|es| - 1]), es[|es| - 1])
  }

  function FedDeltas(es: seq<Arrived>): seq<OrderBookDelta> {
    if es == [] then []
    else FedDeltas(es[..|es| - 1]) + if es[|es| - 1].Fed? then [es[|es| - 1].delta] else []
  }

  predicate LoadsBook(rank: Rank, e: Arrived) {
    e.Loaded? && SnapshotOrdered(rank, e.snapshot)
  }

  /** Event `i` is the last ordered snapshot, and its apply reported success. */
  ghost predicate LastSuccess(rank: Rank, maxPending: int, es: seq<Arrived>, i: nat) {
    && i < |es| && LoadsBook(rank, es[i])
    && (forall j :: i < j < |es| ==> !LoadsBook(rank, es[j]))
    && OnSnapshot(rank, Follow(rank, maxPending, es[..i]), es[i].snapshot).1
  }

  /** The state is the snapshot folded with the last deltas fed, from index `lo` on. */
  ghost predicate Tracks(st: BookState, snap: OrderBookSnapshot, fed: seq<OrderBookDelta>, lo: nat) {
    lo <= |fed| && Explains(st, snap, fed[lo..])
  }

  /** What the arrivals `es`, which fed the deltas `fed`, say about the state they led to. */
  ghost predicate Tracked(rank: Rank, maxPending: int, es: seq<Arrived>, st: BookState, fed: seq<OrderBookDelta>) {
    if st.ready then
      && st.pending == []
      && forall i: nat :: LastSuccess(rank, maxPending, es, i) ==> exists lo: nat :: Tracks(st, es[i].snapshot, fed, lo)
    else
      BuffersLast(st.pending, fed)
  }

  /** Over every sequence of arrivals: a ready book whose last ordered snapshot was acknowledged is
      that snapshot folded with the deltas fed from some point on, all of them, in order. */
  lemma {:induction false} BookTracks(rank: Rank, maxPending: int, es: seq<Arrived>)
    ensures Tracked(rank, maxPending, es, Follow(rank, maxPending, es), FedDeltas(es))
  {
    if es != [] {
      var front := es[..|es| - 1];
      BookTracks(rank, maxPending, front);
      ArrivalTracks(rank, maxPending, front, es, Follow(rank, maxPending, front), FedDeltas(front));
    }
  }

  predicate Extends(front: seq<Arrived>, es: seq<Arrived>) {
    es != [] && front == es[..|es| - 1]
  }

  lemma ArrivalTracks(rank: Rank, maxPending: int, front: seq<Arrived>, es: seq<Arrived>, st: BookState,
                      fed: seq<OrderBookDelta>)
    requires Extends(front, es) && st == Follow(rank, maxPending, front) && Tracked(rank, maxPending, front, st, fed)
    ensures var e := es[|es| - 1];
      Tracked(rank, maxPending, es, After(rank, maxPending, st, e), fed + if e.Fed? then [e.delta] else [])
  {
    assert fed + [] == fed;
    var e := es[|es| - 1];
    if LoadsBook(rank, e) {
      LoadTracks(rank, maxPending, front, es, st, fed);
    } else if e.Loaded? {
      RefusalTracks(rank, maxPending, front, es, st, fed);
    } else {
      FedTracks(rank, maxPending, front, es, st, fed, e.delta);
    }
  }

  lemma LoadTracks(rank: Rank, maxPending: int, front: seq<Arrived>, es: seq<Arrived>, st: BookState,
                   fed: seq<OrderBookDelta>)
    requires Extends(front, es) && st == Follow(rank, maxPending, front) && LoadsBook(rank, es[|es| - 1])
    requires Tracked(rank, maxPending, front, st, fed)
    ensures Tracked(rank, maxPending, es, OnSnapshot(rank, st, es[|es| - 1].snapshot).0, fed)
  {
    var snap := es[|es| - 1].snapshot;
    assert BuffersLast(st.pending, fed);
    var lo, hi := LoadStacks(rank, st, snap, fed);
    forall i: nat | LastSuccess(rank, maxPending, es, i)
      ensures Tracks(OnSnapshot(rank, st, snap).0, es[i].snapshot, fed, lo)
    {
      assert i == |es| - 1 && es[..i] == front;
      assert fed[lo..hi] + fed[|fed|..] == fed[lo..];
    }
  }

  /** A last success stays one when nothing is loaded. */
  lemma StillLast(rank: Rank, maxPending: int, front: seq<Arrived>, es: seq<Arrived>, i: nat)
    requires Extends(front, es) && !LoadsBook(rank, es[|es| - 1]) && LastSuccess(rank, maxPending, es, i)
    ensures i < |front| && es[i] == front[i] && LastSuccess(rank, maxPending, front, i)
  {
    assert es[..i] == front[..i];
  }

  lemma RefusalTracks(rank: Rank, maxPending: int, front: seq<Arrived>, es: seq<Arrived>, st: BookState,
                      fed: seq<OrderBookDelta>)
    requires Extends(front, es) && !LoadsBook(rank, es[|es| - 1]) && Tracked(rank, maxPending, front, st, fed)
    ensures Tracked(rank, maxPending, es, st, fed)
  {
    forall i: nat | st.ready && LastSuccess(rank, maxPending, es, i)
      ensures exists lo: nat :: Tracks(st, es[i].snapshot, fed, lo)
    {
      StillLast(rank, maxPending, front, es, i);
    }
  }

  lemma FedTracks(rank: Rank, maxPending: int, front: seq<Arrived>, es: seq<Arrived>, st: BookState,
                  fed: seq<OrderBookDelta>, d: OrderBookDelta)
    requires Extends(front, es) && es[|es| - 1] == Fed(d) && Tracked(rank, maxPending, front, st, fed)
    ensures Tracked(rank, maxPending, es, OnDelta(st, maxPending, d), fed + [d])
  {
    var after := OnDelta(st, maxPending, d);
    forall i: nat | st.ready && after.ready && LastSuccess(rank, maxPending, es, i)
      ensures exists lo: nat :: Tracks(after, es[i].snapshot, fed + [d], lo)
    {
      StillLast(rank, maxPending, front, es, i);
      var lo: nat :| Tracks(st, es[i].snapshot, fed, lo);
      OneMoreFed(st, maxPending, es[i].snapshot, fed, lo, d);
    }
  }

  lemma OneMoreFed(st: BookState, maxPending: int, snap: OrderBookSnapshot, fed: seq<OrderBookDelta>, lo: nat,
                   d: OrderBookDelta)
    requires Tracks(st, snap, fed, lo) && OnDelta(st, maxPending, d).ready
    ensures Tracks(OnDelta(st, maxPending, d), snap, fed + [d], lo)
  {
    AppliedExplains(st, maxPending, snap, fed[lo..], d);
    assert (fed + [d])[lo..] == fed[lo..] + [d];
  }
}
