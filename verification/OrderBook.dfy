/** The in-memory order book (`orderbook_state.go`): a reference snapshot, a buffer of early
    deltas, and a contiguity check. The value-level part is what the book means; the class
    runs the source's loops on maps it updates in place. */
module OrderBook {
  import opened MarketModel

  /** Ladder sides and cursors. */
  datatype Book = Book(
    bids: map<string, string>,
    asks: map<string, string>,
    lastUpdateID: Option<int>,
    sequence: Option<int>)

  datatype BookState = BookState(ready: bool, book: Book, pending: seq<OrderBookDelta>)

  const EMPTY_BOOK := Book(map[], map[], None, None)
  const EMPTY_STATE := BookState(false, EMPTY_BOOK, [])

  /** Only these two texts count as zero. */
  predicate IsZero(quantity: string) {
    quantity == "0" || quantity == "0.0"
  }

  // ---- one delta --------------------------------------------------------------------

  function SetLevel(side: map<string, string>, l: PriceLevel): map<string, string> {
    if IsZero(l.quantity) then side - {l.price} else side[l.price := l.quantity]
  }

  function SetLevels(side: map<string, string>, ls: seq<PriceLevel>): map<string, string> {
    if ls == [] then side else SetLevel(SetLevels(side, ls[..|ls| - 1]), ls[|ls| - 1])
  }

  function ApplyDelta(b: Book, d: OrderBookDelta): Book {
    Book(SetLevels(b.bids, d.bids), SetLevels(b.asks, d.asks), d.lastUpdateID,
         if d.sequence.Some? then d.sequence else b.sequence)
  }

  /** `checkSequenceMatch`: may `d` follow a book with these cursors? */
  predicate CheckSequenceMatch(lastUpdate: Option<int>, seq0: Option<int>, d: OrderBookDelta) {
    if d.sequence.Some? && seq0.Some? then d.sequence.value == seq0.value + 1
    else if d.sequence.Some? then true
    else if lastUpdate.Some? && d.firstUpdateID.Some? then d.firstUpdateID.value == lastUpdate.value + 1
    else if d.firstUpdateID.Some? then true
    else if lastUpdate.Some? && d.prevUpdateID.Some? then d.prevUpdateID.value == lastUpdate.value
    else true
  }

  predicate Follows(b: Book, d: OrderBookDelta) {
    CheckSequenceMatch(b.lastUpdateID, b.sequence, d)
  }

  // ---- the reference: a snapshot and a contiguous list of deltas ---------------------

  /** Building a side from snapshot levels: zero quantities are skipped, not deleted. */
  function LoadLevels(ls: seq<PriceLevel>): map<string, string> {
    if ls == [] then map[]
    else
      var front, l := LoadLevels(ls[..|ls| - 1]), ls[|ls| - 1];
      if IsZero(l.quantity) then front else front[l.price := l.quantity]
  }

  function FromSnapshot(s: OrderBookSnapshot): Book {
    Book(LoadLevels(s.bids), LoadLevels(s.asks), None, s.sequence)
  }

  function Fold(b: Book, ds: seq<OrderBookDelta>): Book {
    if ds == [] then b else ApplyDelta(Fold(b, ds[..|ds| - 1]), ds[|ds| - 1])
  }

  /** Every delta is contiguous with the book its predecessors produced. */
  predicate Contiguous(b: Book, ds: seq<OrderBookDelta>) {
    ds == [] || (Contiguous(b, ds[..|ds| - 1]) && Follows(Fold(b, ds[..|ds| - 1]), ds[|ds| - 1]))
  }

  // ---- draining ---------------------------------------------------------------------

  /** A buffered delta that lies at or before the snapshot. */
  predicate Stale(b: Book, d: OrderBookDelta) {
    || (b.lastUpdateID.Some? && d.lastUpdateID.Some? && d.lastUpdateID.value <= b.lastUpdateID.value)
    || (b.sequence.Some? && d.sequence.Some? && d.sequence.value <= b.sequence.value)
  }

  /** The number of leading stale deltas. */
  function StaleCount(b: Book, ds: seq<OrderBookDelta>): (n: nat)
    ensures n <= |ds|
  {
    if ds != [] && Stale(b, ds[0]) then 1 + StaleCount(b, ds[1..]) else 0
  }

  /** How many of `ds` can be applied to `b` before the first gap. */
  function ContiguousCount(b: Book, ds: seq<OrderBookDelta>): (n: nat)
    ensures n <= |ds|
    decreases |ds|
  {
    if ds != [] && Follows(b, ds[0]) then 1 + ContiguousCount(ApplyDelta(b, ds[0]), ds[1..]) else 0
  }

  /** The buffered deltas that a drain applies. */
  function Drained(b: Book, ds: seq<OrderBookDelta>): seq<OrderBookDelta> {
    var ahead := ds[StaleCount(b, ds)..];
    ahead[..ContiguousCount(b, ahead)]
  }

  /** A drain succeeds when nothing is left between the stale head and the end. */
  predicate DrainsFully(b: Book, ds: seq<OrderBookDelta>) {
    var ahead := ds[StaleCount(b, ds)..];
    ContiguousCount(b, ahead) == |ahead|
  }

  // ---- the state machine ------------------------------------------------------------

  /** Prices as numbers: an arbitrary function of the text. */
  type Rank = string -> real

  predicate BidsOrdered(rank: Rank, ls: seq<PriceLevel>) {
    forall i :: 1 <= i < |ls| ==> rank(ls[i - 1].price) >= rank(ls[i].price)
  }

  predicate AsksOrdered(rank: Rank, ls: seq<PriceLevel>) {
    forall i :: 1 <= i < |ls| ==> rank(ls[i - 1].price) <= rank(ls[i].price)
  }

  predicate SnapshotOrdered(rank: Rank, s: OrderBookSnapshot) {
    BidsOrdered(rank, s.bids) && AsksOrdered(rank, s.asks)
  }

  /** `applySnapshot`: the state afterwards, and whether it reported success. */
  function OnSnapshot(rank: Rank, st: BookState, s: OrderBookSnapshot): (BookState, bool) {
    if !SnapshotOrdered(rank, s) then (st, false)
    else
      var b := FromSnapshot(s);
      (BookState(true, Fold(b, Drained(b, st.pending)), []), DrainsFully(b, st.pending))
  }

  datatype DeltaResult = Applied | Buffered | Gap | BufferFull

  /** `applyDelta`, before any reset by the caller. */
  function TryDelta(st: BookState, maxPending: int, d: OrderBookDelta): (BookState, DeltaResult) {
    if !st.ready then
      if |st.pending| >= maxPending then (st, BufferFull)
      else (st.(pending := st.pending + [d]), Buffered)
    else
      var b := Fold(st.book, Drained(st.book, st.pending));
      if !DrainsFully(st.book, st.pending) then (BookState(true, b, []), Gap)
      else if Follows(b, d) then (BookState(true, ApplyDelta(b, d), []), Applied)
      else (BookState(true, b, []), Gap)
  }

  predicate Failed(result: DeltaResult) {
    result.Gap? || result.BufferFull?
  }

  /** `onDeltaApplied` without interference: a failed apply resets the book. */
  function OnDelta(st: BookState, maxPending: int, d: OrderBookDelta): BookState {
    var (after, result) := TryDelta(st, maxPending, d);
    if Failed(result) then EMPTY_STATE else after
  }

  /** The book's locked sections. The apply and the reset of one `onDeltaApplied` call are two
      of them, so anything can come between. */
  datatype Event = Snapshot(snapshot: OrderBookSnapshot) | Try(delta: OrderBookDelta) | Reset

  function OnEvent(rank: Rank, maxPending: int, st: BookState, e: Event): BookState {
    match e
    case Snapshot(s) => OnSnapshot(rank, st, s).0
    case Try(d) => TryDelta(st, maxPending, d).0
    case Reset => EMPTY_STATE
  }

  function Play(rank: Rank, maxPending: int, st: BookState, es: seq<Event>): BookState {
    if es == [] then st else OnEvent(rank, maxPending, Play(rank, maxPending, st, es[..|es| - 1]), es[|es| - 1])
  }
}
