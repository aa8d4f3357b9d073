/** When a reference snapshot arrives among consecutive deltas: exactly which arrival points give
    the book that the snapshot and the deltas above it determine. */
module OrderBookArrival {
  import opened MarketModel
  import opened OrderBook
  import opened OrderBookProofs

  /** Deltas numbered `a`, `a + 1`, ... */
  predicate Consecutive(ds: seq<OrderBookDelta>, a: int) {
    forall i :: 0 <= i < |ds| ==> ds[i].sequence == Some(a + i)
  }

  /** The book after `onDeltaApplied` has been called for each delta, without interference. */
  function Deliver(maxPending: int, st: BookState, ds: seq<OrderBookDelta>): BookState {
    if ds == [] then st else OnDelta(Deliver(maxPending, st, ds[..|ds| - 1]), maxPending, ds[|ds| - 1])
  }

  /** The locked sections that those calls go through. */
  function Callbacks(maxPending: int, st: BookState, ds: seq<OrderBookDelta>): seq<Event> {
    if ds == [] then []
    else
      var front, d := ds[..|ds| - 1], ds[|ds| - 1];
      Callbacks(maxPending, st, front) +
      if Failed(TryDelta(Deliver(maxPending, st, front), maxPending, d).1) then [Try(d), Reset] else [Try(d)]
  }

  lemma {:induction false} DeliverIsPlay(rank: Rank, maxPending: int, st: BookState, ds: seq<OrderBookDelta>)
    ensures Deliver(maxPending, st, ds) == Play(rank, maxPending, st, Callbacks(maxPending, st, ds))
  {
    if ds != [] {
      var front := ds[..|ds| - 1];
      DeliverIsPlay(rank, maxPending, st, front);
      PlayCallback(rank, maxPending, st, Callbacks(maxPending, st, front), ds[|ds| - 1]);
    }
  }

  lemma PlayCallback(rank: Rank, maxPending: int, st: BookState, es: seq<Event>, d: OrderBookDelta)
    ensures var now := Play(rank, maxPending, st, es);
      OnDelta(now, maxPending, d) ==
      Play(rank, maxPending, st, es + if Failed(TryDelta(now, maxPending, d).1) then [Try(d), Reset] else [Try(d)])
  {
    assert (es + [Try(d)])[..|es|] == es;
    assert (es + [Try(d), Reset])[..|es| + 1] == es + [Try(d)];
  }

  /** `k` deltas, then the snapshot, then the remaining deltas. */
  function Arrival(rank: Rank, maxPending: int, ds: seq<OrderBookDelta>, snap: OrderBookSnapshot, k: nat): BookState
    requires k <= |ds|
  {
    Deliver(maxPending, OnSnapshot(rank, Deliver(maxPending, EMPTY_STATE, ds[..k]), snap).0, ds[k..])
  }

  // ---- buffering --------------------------------------------------------------------

  /** How many of `n` deltas are still buffered: a full buffer is reset by the next one. */
  function Kept(maxPending: int, n: nat): (k: nat)
    ensures k <= n && (n <= maxPending ==> k == n)
  {
    if n == 0 || Kept(maxPending, n - 1) >= maxPending then 0 else Kept(maxPending, n - 1) + 1
  }

  function Buffered(maxPending: int, ds: seq<OrderBookDelta>): BookState {
    BookState(false, EMPTY_BOOK, ds[|ds| - Kept(maxPending, |ds|)..])
  }

  /** Without a snapshot, the last deltas are in the buffer. */
  lemma {:induction false} DeliverBuffers(maxPending: int, ds: seq<OrderBookDelta>)
    ensures Deliver(maxPending, EMPTY_STATE, ds) == Buffered(maxPending, ds)
  {
    if ds != [] {
      var n := |ds| - 1;
      DeliverBuffers(maxPending, ds[..n]);
      BufferNext(maxPending, ds[..n], ds[n]);
      assert ds == ds[..n] + [ds[n]];
    }
  }

  lemma BufferNext(maxPending: int, ds: seq<OrderBookDelta>, d: OrderBookDelta)
    ensures OnDelta(Buffered(maxPending, ds), maxPending, d) == Buffered(maxPending, ds + [d])
  {
    var k := Kept(maxPending, |ds|);
    if k < maxPending {
      assert (ds + [d])[|ds| - k..] == ds[|ds| - k..] + [d];
    } else {
      assert (ds + [d])[|ds| + 1..] == [];
    }
  }

  // ---- draining ---------------------------------------------------------------------

  /** On a ready book at sequence `q`, the deltas from `q + 1` on all apply. */
  lemma {:induction false} ConsecutiveApply(maxPending: int, b: Book, ds: seq<OrderBookDelta>, q: int)
    requires b.sequence == Some(q) && Consecutive(ds, q + 1)
    ensures Deliver(maxPending, BookState(true, b, []), ds) == BookState(true, Fold(b, ds), [])
    ensures Contiguous(b, ds)
    ensures Fold(b, ds).sequence == Some(q + |ds|)
  {
    if ds != [] {
      var n := |ds| - 1;
      ConsecutiveApply(maxPending, b, ds[..n], q);
      var c := Fold(b, ds[..n]);
      assert Fold(c, Drained(c, [])) == c;
    }
  }

  lemma {:induction false} StaleHead(b: Book, ds: seq<OrderBookDelta>, a: int, q: int)
    requires b.lastUpdateID == None && b.sequence == Some(q) && Consecutive(ds, a)
    ensures StaleCount(b, ds) == if q < a then 0 else if q - a + 1 <= |ds| then q - a + 1 else |ds|
    decreases |ds|
  {
    if ds != [] && Stale(b, ds[0]) {
      assert Consecutive(ds[1..], a + 1);
      StaleHead(b, ds[1..], a + 1, q);
    }
  }

  /** The buffered deltas are drained into the snapshot: those above it, and no others. */
  lemma LoadDrains(rank: Rank, early: seq<OrderBookDelta>, a: int, snap: OrderBookSnapshot, q: int)
    requires Consecutive(early, a) && snap.sequence == Some(q) && SnapshotOrdered(rank, snap)
    requires a <= q + 1 <= a + |early|
    ensures OnSnapshot(rank, BookState(false, EMPTY_BOOK, early), snap)
         == (BookState(true, Fold(FromSnapshot(snap), early[q + 1 - a..]), []), true)
    ensures Fold(FromSnapshot(snap), early[q + 1 - a..]).sequence == Some(a + |early| - 1)
  {
    var b := FromSnapshot(snap);
    var ahead := early[q + 1 - a..];
    StaleHead(b, early, a, q);
    assert Consecutive(ahead, q + 1);
    ConsecutiveApply(0, b, ahead, q);
    CountedIsContiguous(b, ahead);
    assert Drained(b, early) == ahead;
  }

  /** A snapshot above everything buffered skips it all. */
  lemma LoadSkips(rank: Rank, early: seq<OrderBookDelta>, a: int, snap: OrderBookSnapshot, q: int)
    requires Consecutive(early, a) && snap.sequence == Some(q) && SnapshotOrdered(rank, snap) && a + |early| <= q + 1
    ensures OnSnapshot(rank, BookState(false, EMPTY_BOOK, early), snap)
         == (BookState(true, FromSnapshot(snap), []), true)
  {
    StaleHead(FromSnapshot(snap), early, a, q);
    assert Drained(FromSnapshot(snap), early) == [];
  }

  /** A snapshot below the first buffered delta leaves a gap: nothing is drained, and the apply
      reports failure. */
  lemma LoadGaps(rank: Rank, early: seq<OrderBookDelta>, a: int, snap: OrderBookSnapshot, q: int)
    requires Consecutive(early, a) && early != [] && snap.sequence == Some(q) && SnapshotOrdered(rank, snap)
    requires q + 1 < a
    ensures OnSnapshot(rank, BookState(false, EMPTY_BOOK, early), snap)
         == (BookState(true, FromSnapshot(snap), []), false)
  {
    StaleHead(FromSnapshot(snap), early, a, q);
    assert Drained(FromSnapshot(snap), early) == [];
  }

  // ---- arrival points ---------------------------------------------------------------

  /** The first of the first `k` deltas that is still buffered. */
  function FirstKept(maxPending: int, k: nat): nat {
    k - Kept(maxPending, k)
  }

  lemma SplitAt(ds: seq<OrderBookDelta>, a: int, lo: nat, k: nat)
    requires Consecutive(ds, a) && lo <= k <= |ds|
    ensures Consecutive(ds[lo..k], a + lo) && Consecutive(ds[k..], a + k)
  {
  }

  /** The snapshot meets the buffer, then the remaining deltas come. */
  lemma ArrivalIs(rank: Rank, maxPending: int, ds: seq<OrderBookDelta>, snap: OrderBookSnapshot, k: nat)
    requires k <= |ds|
    ensures Arrival(rank, maxPending, ds, snap, k) == Deliver(maxPending,
      OnSnapshot(rank, BookState(false, EMPTY_BOOK, ds[FirstKept(maxPending, k)..k]), snap).0, ds[k..])
  {
    var lo := FirstKept(maxPending, k);
    assert ds[..k][lo..] == ds[lo..k];
    DeliverBuffers(maxPending, ds[..k]);
    assert Deliver(maxPending, EMPTY_STATE, ds[..k]) == BookState(false, EMPTY_BOOK, ds[lo..k]);
  }

  /** The right arrival points. For consecutive sequenced deltas and a snapshot at `q`: if every
      delta at or below `q` has come in, and none above it has been lost from the buffer, the
      final book is the snapshot folded with exactly the deltas above it, whatever the arrival
      point. While no more deltas came in than fit into the buffer, none has been lost. */
  lemma ArrivalPointIsIrrelevant(rank: Rank, maxPending: int, ds: seq<OrderBookDelta>, a: int,
                                 snap: OrderBookSnapshot, q: int, k: nat)
    requires Consecutive(ds, a) && snap.sequence == Some(q) && SnapshotOrdered(rank, snap) && k <= |ds|
    requires a + FirstKept(maxPending, k) <= q + 1 <= a + k
    ensures 0 <= q + 1 - a <= |ds|
    ensures Arrival(rank, maxPending, ds, snap, k) == BookState(true, Fold(FromSnapshot(snap), ds[q + 1 - a..]), [])
  {
    var lo, m := FirstKept(maxPending, k), q + 1 - a;
    SplitAt(ds, a, lo, k);
    SlicesJoin(ds, lo, m, k);
    ArrivedInTime(rank, maxPending, ds[lo..k], ds[k..], ds[m..], a + lo, snap, q);
    ArrivalIs(rank, maxPending, ds, snap, k);
  }

  lemma SlicesJoin(ds: seq<OrderBookDelta>, lo: nat, m: nat, k: nat)
    requires lo <= m <= k <= |ds|
    ensures ds[lo..k][m - lo..] + ds[k..] == ds[m..]
  {
  }

  lemma ArrivedInTime(rank: Rank, maxPending: int, early: seq<OrderBookDelta>, late: seq<OrderBookDelta>,
                      above: seq<OrderBookDelta>, a: int, snap: OrderBookSnapshot, q: int)
    requires Consecutive(early, a) && Consecutive(late, a + |early|)
    requires snap.sequence == Some(q) && SnapshotOrdered(rank, snap) && a <= q + 1 <= a + |early|
    requires early[q + 1 - a..] + late == above
    ensures Deliver(maxPending, OnSnapshot(rank, BookState(false, EMPTY_BOOK, early), snap).0, late)
         == BookState(true, Fold(FromSnapshot(snap), above), [])
  {
    LoadDrains(rank, early, a, snap, q);
    FinishLoaded(maxPending, FromSnapshot(snap), early[q + 1 - a..], late, a + |early|);
  }

  lemma FinishLoaded(maxPending: int, b: Book, ahead: seq<OrderBookDelta>, late: seq<OrderBookDelta>, next: int)
    requires Fold(b, ahead).sequence == Some(next - 1) && Consecutive(late, next)
    ensures Deliver(maxPending, BookState(true, Fold(b, ahead), []), late) == BookState(true, Fold(b, ahead + late), [])
  {
    ConsecutiveApply(maxPending, Fold(b, ahead), late, next - 1);
    FoldAppend(b, ahead, late);
  }

  /** A ready book that the next delta does not follow is reset, and the rest is buffered. */
  lemma ResetByNext(maxPending: int, b: Book, q: int, late: seq<OrderBookDelta>, next: int)
    requires b.sequence == Some(q) && late != [] && Consecutive(late, next) && next != q + 1
    ensures Deliver(maxPending, BookState(true, b, []), late) == Buffered(maxPending, late[1..])
  {
    DeliverAppend(maxPending, BookState(true, b, []), late[..1], late[1..]);
    assert late == late[..1] + late[1..] && late[..1][..0] == [];
    assert Drained(b, []) == [] && Fold(b, []) == b;
    assert Deliver(maxPending, BookState(true, b, []), late[..1]) == EMPTY_STATE;
    DeliverBuffers(maxPending, late[1..]);
  }

  lemma {:induction false} DeliverAppend(maxPending: int, st: BookState, xs: seq<OrderBookDelta>,
                                         ys: seq<OrderBookDelta>)
    ensures Deliver(maxPending, st, xs + ys) == Deliver(maxPending, Deliver(maxPending, st, xs), ys)
  {
    if ys == [] {
      assert xs + ys == xs;
    } else {
      DeliverAppend(maxPending, st, xs, ys[..|ys| - 1]);
      assert (xs + ys)[..|xs + ys| - 1] == xs + ys[..|ys| - 1];
    }
  }

  /** Too early: when a delta at or below the snapshot's sequence is still to come, it resets the
      ready book, and only the last deltas after it remain buffered. */
  lemma EarlySnapshotIsLost(rank: Rank, maxPending: int, ds: seq<OrderBookDelta>, a: int,
                            snap: OrderBookSnapshot, q: int, k: nat)
    requires Consecutive(ds, a) && snap.sequence == Some(q) && SnapshotOrdered(rank, snap)
    requires k < |ds| && a + k <= q
    ensures Arrival(rank, maxPending, ds, snap, k) == Buffered(maxPending, ds[k + 1..])
  {
    var lo := FirstKept(maxPending, k);
    ArrivalIs(rank, maxPending, ds, snap, k);
    SplitAt(ds, a, lo, k);
    LoadSkips(rank, ds[lo..k], a + lo, snap, q);
    ResetByNext(maxPending, FromSnapshot(snap), q, ds[k..], a + k);
    assert ds[k..][1..] == ds[k + 1..];
  }

  /** Too late: when deltas above the snapshot have been lost from the buffer, the snapshot is
      loaded without any delta, and the next delta resets it. */
  lemma LateSnapshotIsLost(rank: Rank, maxPending: int, ds: seq<OrderBookDelta>, a: int,
                           snap: OrderBookSnapshot, q: int, k: nat)
    requires Consecutive(ds, a) && snap.sequence == Some(q) && SnapshotOrdered(rank, snap) && k <= |ds|
    requires q + 1 < a + FirstKept(maxPending, k)
    ensures Arrival(rank, maxPending, ds, snap, k) ==
      if k < |ds| then Buffered(maxPending, ds[k + 1..]) else BookState(true, FromSnapshot(snap), [])
  {
    var lo := FirstKept(maxPending, k);
    ArrivalIs(rank, maxPending, ds, snap, k);
    SplitAt(ds, a, lo, k);
    if lo == k {
      LoadNothing(rank, snap);
    } else {
      LoadGaps(rank, ds[lo..k], a + lo, snap, q);
    }
    assert OnSnapshot(rank, BookState(false, EMPTY_BOOK, ds[lo..k]), snap).0 == BookState(true, FromSnapshot(snap), []);
    if k < |ds| {
      ResetByNext(maxPending, FromSnapshot(snap), q, ds[k..], a + k);
      assert ds[k..][1..] == ds[k + 1..];
    }
  }

  lemma LoadNothing(rank: Rank, snap: OrderBookSnapshot)
    requires SnapshotOrdered(rank, snap)
    ensures OnSnapshot(rank, BookState(false, EMPTY_BOOK, []), snap).0 == BookState(true, FromSnapshot(snap), [])
  {
    assert Drained(FromSnapshot(snap), []) == [];
  }

  // ---- exactly ----------------------------------------------------------------------

  /** The deltas above the snapshot. */
  function Above(ds: seq<OrderBookDelta>, a: int, q: int): seq<OrderBookDelta>
    requires a <= q + 1
  {
    if q + 1 - a <= |ds| then ds[q + 1 - a..] else []
  }

  /** Ahead of everything: a snapshot that arrives last and above every delta stands alone. */
  lemma SnapshotAheadStands(rank: Rank, maxPending: int, ds: seq<OrderBookDelta>, a: int, snap: OrderBookSnapshot,
                            q: int)
    requires Consecutive(ds, a) && snap.sequence == Some(q) && SnapshotOrdered(rank, snap) && a + |ds| <= q + 1
    ensures Arrival(rank, maxPending, ds, snap, |ds|) == BookState(true, FromSnapshot(snap), [])
  {
    var n := |ds|;
    var lo := FirstKept(maxPending, n);
    SplitAt(ds, a, lo, n);
    LoadSkips(rank, ds[lo..n], a + lo, snap, q);
    ArrivalIs(rank, maxPending, ds, snap, n);
    assert ds[n..] == [];
  }

  /** The final book is the snapshot folded with the deltas above it if and only if no delta above
      the snapshot has been lost from the buffer when it arrives, and no delta at or below it is
      still to come. */
  lemma ArrivalIsRightExactly(rank: Rank, maxPending: int, ds: seq<OrderBookDelta>, a: int,
                              snap: OrderBookSnapshot, q: int, k: nat)
    requires Consecutive(ds, a) && snap.sequence == Some(q) && SnapshotOrdered(rank, snap) && k <= |ds| && a <= q + 1
    ensures Arrival(rank, maxPending, ds, snap, k)
              == BookState(true, Fold(FromSnapshot(snap), Above(ds, a, q)), []) <==>
            a + FirstKept(maxPending, k) <= q + 1 && (q + 1 <= a + k || k == |ds|)
  {
    if q + 1 < a + FirstKept(maxPending, k) {
      LateSnapshotIsLost(rank, maxPending, ds, a, snap, q, k);
      AboveMoves(ds, a, snap, q);
    } else if q + 1 <= a + k {
      ArrivalPointIsIrrelevant(rank, maxPending, ds, a, snap, q, k);
    } else if k == |ds| {
      SnapshotAheadStands(rank, maxPending, ds, a, snap, q);
    } else {
      EarlySnapshotIsLost(rank, maxPending, ds, a, snap, q, k);
    }
  }

  /** Folding at least one delta moves the sequence on. */
  lemma AboveMoves(ds: seq<OrderBookDelta>, a: int, snap: OrderBookSnapshot, q: int)
    requires Consecutive(ds, a) && snap.sequence == Some(q) && a <= q + 1 < a + |ds|
    ensures Fold(FromSnapshot(snap), Above(ds, a, q)) != FromSnapshot(snap)
  {
    assert Consecutive(Above(ds, a, q), q + 1);
    ConsecutiveApply(0, FromSnapshot(snap), Above(ds, a, q), q);
  }
}
