/** `orderBookState` as it runs, with a ghost record of the reference snapshot and of the
    deltas applied since. */
module OrderBookState {
  import opened MarketModel
  import opened OrderBook
  import opened OrderBookProofs
  import opened BookExport

  class OrderBookState {
    const rank: Rank
    const groupID: string
    const maxPending: int

    var ready: bool
    var inputID: string
    var bids: map<string, string>
    var asks: map<string, string>
    var lastUpdateID: Option<int>
    var sequence: Option<int>
    var pending: seq<OrderBookDelta>

    ghost var reference: Option<OrderBookSnapshot>
    ghost var applied: seq<OrderBookDelta>

    function Current(): Book
      reads this
    {
      Book(bids, asks, lastUpdateID, sequence)
    }

    function State(): BookState
      reads this
    {
      BookState(ready, Current(), pending)
    }

    /** A ready book is the recorded snapshot folded with the recorded contiguous deltas, and
        buffers nothing; a book that is not ready is empty. */
    ghost predicate Valid()
      reads this
    {
      if ready then reference.Some? && Explains(State(), reference.value, applied)
      else Current() == EMPTY_BOOK
    }

    constructor (rank: Rank, groupID: string, maxPending: int)
      ensures Valid() && State() == EMPTY_STATE
      ensures this.rank == rank && this.groupID == groupID && this.maxPending == maxPending
    {
      this.rank, this.groupID, this.maxPending := rank, groupID, maxPending;
      ready, inputID := false, "";
      bids, asks, lastUpdateID, sequence, pending := map[], map[], None, None, [];
      reference, applied := None, [];
    }

    /** `applyOne`: check contiguity, then overwrite levels and advance the cursors. */
    method ApplyOne(d: OrderBookDelta) returns (ok: bool)
      modifies this`bids, this`asks, this`lastUpdateID, this`sequence
      ensures ok <==> Follows(old(Current()), d)
      ensures Current() == if ok then ApplyDelta(old(Current()), d) else old(Current())
    {
      ok := CheckSequenceMatch(lastUpdateID, sequence, d);
      if !ok {
        return;
      }
      for i := 0 to |d.bids|
        invariant bids == SetLevels(old(bids), d.bids[..i])
        invariant asks == old(asks) && lastUpdateID == old(lastUpdateID) && sequence == old(sequence)
      {
        assert d.bids[..i + 1][..i] == d.bids[..i];
        var level := d.bids[i];
        if level.quantity == "0" || level.quantity == "0.0" {
          bids := bids - {level.price};
        } else {
          bids := bids[level.price := level.quantity];
        }
      }
      assert d.bids[..|d.bids|] == d.bids;
      for i := 0 to |d.asks|
        invariant asks == SetLevels(old(asks), d.asks[..i])
        invariant bids == SetLevels(old(bids), d.bids) && lastUpdateID == old(lastUpdateID) && sequence == old(sequence)
      {
        assert d.asks[..i + 1][..i] == d.asks[..i];
        var level := d.asks[i];
        if level.quantity == "0" || level.quantity == "0.0" {
          asks := asks - {level.price};
        } else {
          asks := asks[level.price := level.quantity];
        }
      }
      assert d.asks[..|d.asks|] == d.asks;
      lastUpdateID := d.lastUpdateID;
      if d.sequence.Some? {
        sequence := d.sequence;
      }
    }

    /** The first loop of `drainPending`: find the first delta ahead of the snapshot. */
    method SkipStale(buf: seq<OrderBookDelta>) returns (i: nat)
      ensures i == StaleCount(Current(), buf)
    {
      i := 0;
      while i < |buf|
        invariant 0 <= i <= |buf|
        invariant StaleCount(Current(), buf) == i + StaleCount(Current(), buf[i..])
      {
        var d := buf[i];
        assert buf[i..][1..] == buf[i + 1..];
        if lastUpdateID.Some? && d.lastUpdateID.Some? && d.lastUpdateID.value <= lastUpdateID.value {
          i := i + 1;
          continue;
        }
        if sequence.Some? && d.sequence.Some? && d.sequence.value <= sequence.value {
          i := i + 1;
          continue;
        }
        return;
      }
    }

    /** The rest of `drainPending`: apply in order until the first gap. */
    method ApplyRun(ds: seq<OrderBookDelta>) returns (ok: bool)
      modifies this`bids, this`asks, this`lastUpdateID, this`sequence
      ensures Current() == Fold(old(Current()), ds[..ContiguousCount(old(Current()), ds)])
      ensures ok <==> ContiguousCount(old(Current()), ds) == |ds|
    {
      for j := 0 to |ds|
        invariant Current() == Fold(old(Current()), ds[..j])
        invariant ContiguousCount(old(Current()), ds) == j + ContiguousCount(Current(), ds[j..])
      {
        assert ds[..j + 1][..j] == ds[..j];
        assert ds[j..][1..] == ds[j + 1..];
        var one := ApplyOne(ds[j]);
        if !one {
          return false;
        }
      }
      assert ds[|ds|..] == [];
      return true;
    }

    /** `drainPending`: skip the stale head, then apply until the first gap. */
    method DrainPending() returns (ok: bool)
      modifies this`bids, this`asks, this`lastUpdateID, this`sequence, this`pending
      ensures Current() == Fold(old(Current()), Drained(old(Current()), old(pending)))
      ensures ok <==> DrainsFully(old(Current()), old(pending))
      ensures pending == []
    {
      var buf := pending;
      pending := [];
      var i := SkipStale(buf);
      ok := ApplyRun(buf[i..]);
    }

    /** `applySnapshot`: validate first, then replace the book and drain the buffer. */
    method ApplySnapshot(s: OrderBookSnapshot) returns (ok: bool)
      requires Valid()
      modifies this
      ensures Valid()
      ensures State() == OnSnapshot(rank, old(State()), s).0
      ensures ok == OnSnapshot(rank, old(State()), s).1
    {
      ok := ValidateBidAskOrder(rank, s.bids, s.asks);
      if !ok {
        return;
      }
      bids := LoadSide(s.bids);
      asks := LoadSide(s.asks);
      lastUpdateID, sequence, inputID := None, s.sequence, s.inputID;
      ready := true;
      ghost var buffered := pending;
      ghost var b := Current();
      assert b == FromSnapshot(s);
      if |pending| > 0 {
        ok := DrainPending();
      } else {
        assert Drained(b, pending) == [];
      }
      pending := [];
      reference, applied := Some(s), Drained(b, buffered);
      DrainedIsContiguous(b, buffered);
    }

    /** `applyDelta`: buffer before the snapshot, otherwise apply. */
    method TryApply(d: OrderBookDelta) returns (result: DeltaResult)
      requires Valid()
      modifies this
      ensures Valid()
      ensures (State(), result) == TryDelta(old(State()), maxPending, d)
    {
      if !ready {
        if |pending| >= maxPending {
          return BufferFull;
        }
        pending := pending + [d];
        return Buffered;
      }
      ghost var b := Current();
      assert Drained(b, []) == [] && Fold(b, []) == b;
      if |pending| > 0 {
        assert false;
      }
      var ok := ApplyOne(d);
      if !ok {
        return Gap;
      }
      FoldAppend(FromSnapshot(reference.value), applied, [d]);
      FoldOne(b, d);
      applied := applied + [d];
      return Applied;
    }

    /** `reset`: back to an empty book that waits for a snapshot. */
    method Reset()
      modifies this
      ensures Valid() && State() == EMPTY_STATE
    {
      bids, asks, lastUpdateID, sequence := map[], map[], None, None;
      ready, pending := false, [];
    }

    /** `onDeltaApplied`: what the group worker does with every persisted delta, when nothing
        comes between its two locked sections. */
    method OnDeltaApplied(d: OrderBookDelta)
      requires Valid()
      modifies this
      ensures Valid()
      ensures State() == OnDelta(old(State()), maxPending, d)
    {
      var result := TryApply(d);
      if Failed(result) {
        Reset();
      }
    }

    /** `generateSnapshot`: a ready book is exported in full; otherwise nothing is. */
    method GenerateSnapshot(at: int) returns (s: OrderBookSnapshot)
      requires Valid()
      ensures s.snapshotTime == at && s.groupID == groupID && s.inputID == inputID
      ensures ready ==> s.sequence == sequence
      ensures ready ==> ExportOf(rank, bids, true, s.bids) && ExportOf(rank, asks, false, s.asks)
      ensures !ready ==> s.sequence == None && s.bids == [] && s.asks == []
    {
      if !ready {
        return OrderBookSnapshot(groupID, inputID, at, None, [], []);
      }
      ExplainedHasNoZero(reference.value, applied);
      assert NonZero(bids) == bids && NonZero(asks) == asks;
      var bs := ExportLevels(rank, bids, true);
      var as_ := ExportLevels(rank, asks, false);
      return OrderBookSnapshot(groupID, inputID, at, sequence, bs, as_);
    }
  }

  /** The loop that builds one side from snapshot levels. */
  method LoadSide(ls: seq<PriceLevel>) returns (side: map<string, string>)
    ensures side == LoadLevels(ls)
  {
    side := map[];
    for i := 0 to |ls|
      invariant side == LoadLevels(ls[..i])
    {
      assert ls[..i + 1][..i] == ls[..i];
      if ls[i].quantity == "0" || ls[i].quantity == "0.0" {
        continue;
      }
      side := side[ls[i].price := ls[i].quantity];
    }
    assert ls[..|ls|] == ls;
  }

  /** `validateBidAskOrder`: bids must not rise, asks must not fall. */
  method ValidateBidAskOrder(rank: Rank, bids: seq<PriceLevel>, asks: seq<PriceLevel>) returns (ok: bool)
    ensures ok <==> BidsOrdered(rank, bids) && AsksOrdered(rank, asks)
  {
    var i := 1;
    while i < |bids|
      invariant 1 <= i
      invariant forall k :: 1 <= k < i && k < |bids| ==> rank(bids[k - 1].price) >= rank(bids[k].price)
    {
      if rank(bids[i - 1].price) < rank(bids[i].price) {
        return false;
      }
      i := i + 1;
    }
    var j := 1;
    while j < |asks|
      invariant 1 <= j
      invariant forall k :: 1 <= k < j && k < |asks| ==> rank(asks[k - 1].price) <= rank(asks[k].price)
    {
      if rank(asks[j - 1].price) > rank(asks[j].price) {
        return false;
      }
      j := j + 1;
    }
    return true;
  }
}
