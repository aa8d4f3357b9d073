/** What holds of the order book over every history of snapshots and deltas. */
module OrderBookProofs {
  import opened MarketModel
  import opened OrderBook

  // ---- folds ------------------------------------------------------------------------

  lemma {:induction false} FoldAppend(b: Book, xs: seq<OrderBookDelta>, ys: seq<OrderBookDelta>)
    ensures Fold(b, xs + ys) == Fold(Fold(b, xs), ys)
    ensures Contiguous(b, xs + ys) <==> Contiguous(b, xs) && Contiguous(Fold(b, xs), ys)
  {
    if ys == [] {
      assert xs + ys == xs;
    } else {
      FoldAppend(b, xs, ys[..|ys| - 1]);
      assert (xs + ys)[..|xs + ys| - 1] == xs + ys[..|ys| - 1];
    }
  }

  lemma FoldOne(b: Book, d: OrderBookDelta)
    ensures Fold(b, [d]) == ApplyDelta(b, d)
    ensures Contiguous(b, [d]) <==> Follows(b, d)
  {
    assert [d][..0] == [];
  }

  lemma ContiguousFrom(b: Book, d: OrderBookDelta, ds: seq<OrderBookDelta>)
    ensures Contiguous(b, [d] + ds) <==> Follows(b, d) && Contiguous(ApplyDelta(b, d), ds)
  {
    FoldOne(b, d);
    FoldAppend(b, [d], ds);
  }

  lemma {:induction false} CountedIsContiguous(b: Book, ds: seq<OrderBookDelta>)
    ensures Contiguous(b, ds[..ContiguousCount(b, ds)])
    ensures ContiguousCount(b, ds) == |ds| <==> Contiguous(b, ds)
    decreases |ds|
  {
    if ds != [] {
      var d, rest := ds[0], ds[1..];
      assert ds == [d] + rest;
      ContiguousFrom(b, d, rest);
      if Follows(b, d) {
        var n := ContiguousCount(ApplyDelta(b, d), rest);
        CountedIsContiguous(ApplyDelta(b, d), rest);
        ContiguousFrom(b, d, rest[..n]);
        assert ds[..n + 1] == [d] + rest[..n];
      }
    }
  }

  /** A drain applies a contiguous run of the buffer, after its stale head. */
  lemma DrainedIsContiguous(b: Book, ds: seq<OrderBookDelta>)
    ensures Contiguous(b, Drained(b, ds))
    ensures forall d :: d in Drained(b, ds) ==> d in ds
  {
    var ahead := ds[StaleCount(b, ds)..];
    CountedIsContiguous(b, ahead);
    assert forall d :: d in ahead ==> d in ds;
  }

  // ---- every reachable ready state is a fold ----------------------------------------

  /** The state is exactly what `snap` followed by the contiguous `ds` gives. */
  ghost predicate Explains(st: BookState, snap: OrderBookSnapshot, ds: seq<OrderBookDelta>) {
    && st.ready && st.pending == []
    && Contiguous(FromSnapshot(snap), ds)
    && st.book == Fold(FromSnapshot(snap), ds)
  }

  /** The delta that the event applies or buffers, if any. */
  function TakenFrom(maxPending: int, st: BookState, e: Event): seq<OrderBookDelta> {
    if e.Try? && !Failed(TryDelta(st, maxPending, e.delta).1) then [e.delta] else []
  }

  /** The deltas whose apply did not fail, in order of arrival. */
  function Taken(rank: Rank, maxPending: int, es: seq<Event>): seq<OrderBookDelta> {
    if es == [] then []
    else
      var front := es[..|es| - 1];
      Taken(rank, maxPending, front) + TakenFrom(maxPending, Play(rank, maxPending, EMPTY_STATE, front), es[|es| - 1])
  }

  predicate Loads(rank: Rank, e: Event) {
    e.Snapshot? && SnapshotOrdered(rank, e.snapshot)
  }

  /** Event `i` is the last ordered snapshot, and no reset came after it. */
  predicate LastLoad(rank: Rank, es: seq<Event>, i: nat) {
    && i < |es| && Loads(rank, es[i])
    && (forall j :: i < j < |es| ==> !Loads(rank, es[j]) && !es[j].Reset?)
  }

  /** The state is `snap`, then a stretch of the deltas taken before it, then all taken since. */
  ghost predicate Stacks(st: BookState, snap: OrderBookSnapshot, before: seq<OrderBookDelta>,
                         all: seq<OrderBookDelta>, lo: nat, hi: nat) {
    lo <= hi <= |before| <= |all| && Explains(st, snap, before[lo..hi] + all[|before|..])
  }

  /** The snapshot is that of event `i`. The stretch before it ends where it came in, unless the
      drain failed. */
  ghost predicate ExplainedBy(rank: Rank, maxPending: int, es: seq<Event>, st: BookState, taken: seq<OrderBookDelta>,
                              i: nat, lo: nat, hi: nat) {
    && LastLoad(rank, es, i)
    && var before := Taken(rank, maxPending, es[..i]);
    && (OnSnapshot(rank, Play(rank, maxPending, EMPTY_STATE, es[..i]), es[i].snapshot).1 ==> hi == |before|)
    && Stacks(st, es[i].snapshot, before, taken, lo, hi)
  }

  /** The buffer is the last stretch of the deltas taken. */
  ghost predicate BuffersLast(pending: seq<OrderBookDelta>, taken: seq<OrderBookDelta>) {
    |pending| <= |taken| && pending == taken[|taken| - |pending|..]
  }

  /** What the history `es`, which took the deltas `taken`, says about the state it led to. */
  ghost predicate Explained(rank: Rank, maxPending: int, es: seq<Event>, st: BookState, taken: seq<OrderBookDelta>) {
    if st.ready then exists i: nat, lo: nat, hi: nat :: ExplainedBy(rank, maxPending, es, st, taken, i, lo, hi)
    else st.book == EMPTY_BOOK && BuffersLast(st.pending, taken)
  }

  /** Over every interleaving of snapshots, applies and resets: a ready book is the last ordered
      snapshot, on top of it an in-order stretch of the deltas taken before it, and then all
      deltas taken since, each contiguous with its predecessor; nothing is buffered. A book that
      is not ready is empty, and its buffer is the last stretch of the deltas taken. */
  lemma {:induction false} ReachableIsExplained(rank: Rank, maxPending: int, es: seq<Event>)
    ensures Explained(rank, maxPending, es, Play(rank, maxPending, EMPTY_STATE, es), Taken(rank, maxPending, es))
  {
    if es != [] {
      var front := es[..|es| - 1];
      ReachableIsExplained(rank, maxPending, front);
      EventExplained(rank, maxPending, front, es,
                     Play(rank, maxPending, EMPTY_STATE, front), Taken(rank, maxPending, front));
    }
  }

  lemma EventExplained(rank: Rank, maxPending: int, front: seq<Event>, es: seq<Event>, st: BookState,
                       taken: seq<OrderBookDelta>)
    requires Extends(front, es) && Explained(rank, maxPending, front, st, taken)
    requires st == Play(rank, maxPending, EMPTY_STATE, front) && taken == Taken(rank, maxPending, front)
    ensures var e := es[|es| - 1];
      Explained(rank, maxPending, es, OnEvent(rank, maxPending, st, e), taken + TakenFrom(maxPending, st, e))
  {
    assert taken + [] == taken;
    match es[|es| - 1]
    case Snapshot(s) =>
      if SnapshotOrdered(rank, s) {
        LoadExplained(rank, maxPending, front, es, st, taken);
      } else {
        UnchangedExplained(rank, maxPending, front, es, st, taken);
      }
    case Try(d) => TryExplained(rank, maxPending, front, es, st, taken, d);
    case Reset =>
  }

  predicate Extends(front: seq<Event>, es: seq<Event>) {
    es != [] && front == es[..|es| - 1]
  }

  lemma LoadExplained(rank: Rank, maxPending: int, front: seq<Event>, es: seq<Event>, st: BookState,
                      taken: seq<OrderBookDelta>)
    requires Extends(front, es) && Loads(rank, es[|es| - 1])
    requires st == Play(rank, maxPending, EMPTY_STATE, front) && taken == Taken(rank, maxPending, front)
    requires Explained(rank, maxPending, front, st, taken)
    ensures Explained(rank, maxPending, es, OnSnapshot(rank, st, es[|es| - 1].snapshot).0, taken)
  {
    var i := |es| - 1;
    var lo, hi := LoadStacks(rank, st, es[i].snapshot, taken);
    assert ExplainedBy(rank, maxPending, es, OnSnapshot(rank, st, es[i].snapshot).0, taken, i, lo, hi);
  }

  lemma LoadStacks(rank: Rank, st: BookState, snap: OrderBookSnapshot, taken: seq<OrderBookDelta>)
    returns (lo: nat, hi: nat)
    requires SnapshotOrdered(rank, snap) && BuffersLast(st.pending, taken)
    ensures Stacks(OnSnapshot(rank, st, snap).0, snap, taken, taken, lo, hi)
    ensures OnSnapshot(rank, st, snap).1 ==> hi == |taken|
  {
    var b := FromSnapshot(snap);
    lo := |taken| - |st.pending| + StaleCount(b, st.pending);
    hi := lo + |Drained(b, st.pending)|;
    DrainedIsContiguous(b, st.pending);
    assert taken[lo..hi] + taken[|taken|..] == Drained(b, st.pending);
  }

  /** An event that changes neither the state nor the deltas taken. */
  lemma UnchangedExplained(rank: Rank, maxPending: int, front: seq<Event>, es: seq<Event>, st: BookState,
                           taken: seq<OrderBookDelta>)
    requires Extends(front, es) && Explained(rank, maxPending, front, st, taken)
    requires !Loads(rank, es[|es| - 1]) && !es[|es| - 1].Reset?
    ensures Explained(rank, maxPending, es, st, taken)
  {
    if st.ready {
      var i: nat, lo: nat, hi: nat :| ExplainedBy(rank, maxPending, front, st, taken, i, lo, hi);
      StillLastLoad(rank, front, es, i);
      assert ExplainedBy(rank, maxPending, es, st, taken, i, lo, hi);
    }
  }

  lemma StillLastLoad(rank: Rank, front: seq<Event>, es: seq<Event>, i: nat)
    requires Extends(front, es) && LastLoad(rank, front, i) && !Loads(rank, es[|es| - 1]) && !es[|es| - 1].Reset?
    ensures LastLoad(rank, es, i) && es[..i] == front[..i] && es[i] == front[i]
  {
  }

  lemma TryExplained(rank: Rank, maxPending: int, front: seq<Event>, es: seq<Event>, st: BookState,
                     taken: seq<OrderBookDelta>, d: OrderBookDelta)
    requires Extends(front, es) && Explained(rank, maxPending, front, st, taken) && es[|es| - 1] == Try(d)
    ensures var (after, result) := TryDelta(st, maxPending, d);
      Explained(rank, maxPending, es, after, taken + if Failed(result) then [] else [d])
  {
    var (after, result) := TryDelta(st, maxPending, d);
    if Failed(result) {
      FailedDeltaChangesNothing(st, maxPending, d);
      UnchangedExplained(rank, maxPending, front, es, st, taken);
      assert taken + [] == taken;
    } else if st.ready {
      var i: nat, lo: nat, hi: nat :| ExplainedBy(rank, maxPending, front, st, taken, i, lo, hi);
      StillLastLoad(rank, front, es, i);
      OneMoreStacks(st, maxPending, es[i].snapshot, Taken(rank, maxPending, es[..i]), taken, lo, hi, d);
      assert ExplainedBy(rank, maxPending, es, after, taken + [d], i, lo, hi);
    }
  }

  lemma OneMoreStacks(st: BookState, maxPending: int, snap: OrderBookSnapshot, before: seq<OrderBookDelta>,
                      all: seq<OrderBookDelta>, lo: nat, hi: nat, d: OrderBookDelta)
    requires Stacks(st, snap, before, all, lo, hi) && !Failed(TryDelta(st, maxPending, d).1)
    ensures Stacks(TryDelta(st, maxPending, d).0, snap, before, all + [d], lo, hi)
  {
    var ds := before[lo..hi] + all[|before|..];
    AppliedExplains(st, maxPending, snap, ds, d);
    assert before[lo..hi] + (all + [d])[|before|..] == ds + [d];
  }

  lemma AppliedExplains(st: BookState, maxPending: int, snap: OrderBookSnapshot, ds: seq<OrderBookDelta>,
                        d: OrderBookDelta)
    requires Explains(st, snap, ds) && !Failed(TryDelta(st, maxPending, d).1)
    ensures Explains(TryDelta(st, maxPending, d).0, snap, ds + [d])
  {
    assert Fold(st.book, Drained(st.book, [])) == st.book;
    FoldAppend(FromSnapshot(snap), ds, [d]);
    FoldOne(st.book, d);
  }

  /** A failed apply leaves the book as it was: the reset is the caller's doing, and no
      half-applied delta is ever visible. */
  lemma FailedDeltaChangesNothing(st: BookState, maxPending: int, d: OrderBookDelta)
    requires st.ready ==> st.pending == []
    ensures TryDelta(st, maxPending, d).1 in {Gap, BufferFull} ==> TryDelta(st, maxPending, d).0 == st
  {
    assert Fold(st.book, []) == st.book;
  }

  /** With sequences on the snapshot and on every delta, the book's sequence is the
      snapshot's plus the number of deltas applied. */
  lemma {:induction false} SequenceCountsDeltas(snap: OrderBookSnapshot, ds: seq<OrderBookDelta>)
    requires snap.sequence.Some? && Contiguous(FromSnapshot(snap), ds)
    requires forall i :: 0 <= i < |ds| ==> ds[i].sequence.Some?
    ensures Fold(FromSnapshot(snap), ds).sequence == Some(snap.sequence.value + |ds|)
  {
    if ds != [] {
      SequenceCountsDeltas(snap, ds[..|ds| - 1]);
    }
  }

  /** Over every interleaving, a book is ready if and only if an ordered snapshot came in with no
      reset after it: neither deltas nor refused snapshots matter. In particular the reset of a
      failed apply, when it comes late, wipes whatever snapshot was applied in between. */
  lemma {:induction false} ReadyExactlyAfterLoad(rank: Rank, maxPending: int, es: seq<Event>)
    ensures Play(rank, maxPending, EMPTY_STATE, es).ready <==> exists i: nat :: LastLoad(rank, es, i)
  {
    if es != [] {
      var front, e := es[..|es| - 1], es[|es| - 1];
      ReadyExactlyAfterLoad(rank, maxPending, front);
      if Loads(rank, e) {
        assert LastLoad(rank, es, |es| - 1);
      } else if !e.Reset? {
        SameLastLoad(rank, front, es);
      }
    }
  }

  lemma SameLastLoad(rank: Rank, front: seq<Event>, es: seq<Event>)
    requires Extends(front, es) && !Loads(rank, es[|es| - 1]) && !es[|es| - 1].Reset?
    ensures (exists i: nat :: LastLoad(rank, es, i)) <==> (exists i: nat :: LastLoad(rank, front, i))
  {
    if i: nat :| LastLoad(rank, front, i) {
      StillLastLoad(rank, front, es, i);
    }
    if i: nat :| LastLoad(rank, es, i) {
      assert LastLoad(rank, front, i);
    }
  }
}
