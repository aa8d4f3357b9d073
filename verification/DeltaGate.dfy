/** The monotonicity gate in front of the delta fact table (`sequence.go`). */
module DeltaGate {
  import opened MarketModel

  function DeltaTerminal(d: OrderBookDelta): Option<int> {
    if d.lastUpdateID.Some? then d.lastUpdateID else d.sequence
  }

  predicate SameDeltaIdentity(a: OrderBookDelta, b: OrderBookDelta) {
    || (a.rawEventID != "" && a.rawEventID == b.rawEventID)
    || (&& a.firstUpdateID == b.firstUpdateID
        && a.lastUpdateID == b.lastUpdateID
        && a.sequence == b.sequence
        && (a.firstUpdateID.Some? || a.lastUpdateID.Some? || a.sequence.Some?))
  }

  /** True when `current` is to be stored and becomes the new cursor. */
  predicate CheckDeltaContinuity(previous: Option<OrderBookDelta>, current: OrderBookDelta) {
    if previous.None? then true
    else if SameDeltaIdentity(previous.value, current) then false
    else
      var p, c := DeltaTerminal(previous.value), DeltaTerminal(current);
      p.Some? && c.Some? ==> c.value > p.value
  }

  /** What survives of a cursor in `stream_write_progress`, as reloaded after a restart:
      the first update id, the previous update id and the levels are not kept. */
  function Reloaded(cursor: OrderBookDelta): OrderBookDelta {
    OrderBookDelta(cursor.rawEventID, None, cursor.lastUpdateID, None, cursor.sequence, [], [])
  }

  /** Restart invariance, exactly: the reloaded cursor takes every decision the live one
      would take if and only if the live cursor has a terminal id, or has no first update
      id to lose. */
  lemma ReloadKeepsDecisions(cursor: OrderBookDelta)
    ensures (forall d :: CheckDeltaContinuity(Some(cursor), d) == CheckDeltaContinuity(Some(Reloaded(cursor)), d))
       <==> DeltaTerminal(cursor).Some? || cursor.firstUpdateID.None?
  {
    if DeltaTerminal(cursor).None? && cursor.firstUpdateID.Some? {
      var twin := cursor.(rawEventID := "", bids := [], asks := []);
      assert SameDeltaIdentity(cursor, twin);
      assert CheckDeltaContinuity(Some(cursor), twin) != CheckDeltaContinuity(Some(Reloaded(cursor)), twin);
    }
  }

  /** `c` stands at or above terminal id `t`. */
  predicate AtLeast(c: Option<OrderBookDelta>, t: int) {
    c.Some? && DeltaTerminal(c.value).Some? && DeltaTerminal(c.value).value >= t
  }

  /** The deltas of `ds` that pass the gate, started from `cursor`. */
  function Accepted(cursor: Option<OrderBookDelta>, ds: seq<OrderBookDelta>): seq<OrderBookDelta>
    decreases |ds|
  {
    if ds == [] then []
    else if CheckDeltaContinuity(cursor, ds[0]) then [ds[0]] + Accepted(Some(ds[0]), ds[1..])
    else Accepted(cursor, ds[1..])
  }

  predicate AllTerminal(ds: seq<OrderBookDelta>) {
    forall i :: 0 <= i < |ds| ==> DeltaTerminal(ds[i]).Some?
  }

  ghost predicate StrictlyIncreasing(ds: seq<OrderBookDelta>)
    requires AllTerminal(ds)
  {
    forall i, j :: 0 <= i < j < |ds| ==> DeltaTerminal(ds[i]).value < DeltaTerminal(ds[j]).value
  }

  ghost predicate AllAbove(ds: seq<OrderBookDelta>, t: int)
    requires AllTerminal(ds)
  {
    forall i :: 0 <= i < |ds| ==> DeltaTerminal(ds[i]).value > t
  }

  /** With a terminal id on every delta, one session stores strictly increasing terminals,
      all above the cursor it started from, whatever order and duplication arrives. */
  lemma {:induction false} AcceptedStrictlyIncreases(cursor: Option<OrderBookDelta>, ds: seq<OrderBookDelta>)
    requires AllTerminal(ds)
    decreases |ds|
    ensures AllTerminal(Accepted(cursor, ds)) && StrictlyIncreasing(Accepted(cursor, ds))
    ensures forall t :: AtLeast(cursor, t) ==> AllAbove(Accepted(cursor, ds), t)
  {
    if ds != [] {
      var rest := ds[1..];
      if CheckDeltaContinuity(cursor, ds[0]) {
        AcceptedStrictlyIncreases(Some(ds[0]), rest);
        assert AtLeast(Some(ds[0]), DeltaTerminal(ds[0]).value);
        assert AllAbove(Accepted(Some(ds[0]), rest), DeltaTerminal(ds[0]).value);
      } else {
        AcceptedStrictlyIncreases(cursor, rest);
      }
    }
  }

  /** The event id of the cursor. */
  function EventBefore(cursor: Option<OrderBookDelta>): string {
    if cursor.None? then "" else cursor.value.rawEventID
  }

  /** A delta repeats the event id of the one before it, the first that of the cursor. */
  predicate RepeatsAt(cursor: Option<OrderBookDelta>, ds: seq<OrderBookDelta>, i: nat) {
    && i < |ds| && ds[i].rawEventID != ""
    && ds[i].rawEventID == if i == 0 then EventBefore(cursor) else ds[i - 1].rawEventID
  }

  ghost predicate Repeats(cursor: Option<OrderBookDelta>, ds: seq<OrderBookDelta>) {
    exists i: nat :: RepeatsAt(cursor, ds, i)
  }

  /** Deltas without any number cannot be stale: whatever the cursor, all of them are stored if
      and only if none repeats the event id before it. */
  lemma {:induction false} UnnumberedAreStored(cursor: Option<OrderBookDelta>, ds: seq<OrderBookDelta>)
    requires forall i :: 0 <= i < |ds| ==> ds[i].lastUpdateID.None? && ds[i].sequence.None? && ds[i].firstUpdateID.None?
    ensures Accepted(cursor, ds) == ds <==> !Repeats(cursor, ds)
    ensures |Accepted(cursor, ds)| <= |ds|
    decreases |ds|
  {
    if ds != [] {
      var d, rest := ds[0], ds[1..];
      var kept := CheckDeltaContinuity(cursor, d);
      assert kept <==> d.rawEventID == "" || d.rawEventID != EventBefore(cursor);
      UnnumberedAreStored(if kept then Some(d) else cursor, rest);
      if kept {
        RepeatsAfter(cursor, ds);
        assert ds == [d] + rest;
        assert ([d] + Accepted(Some(d), rest))[1..] == Accepted(Some(d), rest);
      } else {
        assert RepeatsAt(cursor, ds, 0);
      }
    }
  }

  lemma RepeatsAfter(cursor: Option<OrderBookDelta>, ds: seq<OrderBookDelta>)
    requires ds != [] && (ds[0].rawEventID == "" || ds[0].rawEventID != EventBefore(cursor))
    ensures Repeats(cursor, ds) <==> Repeats(Some(ds[0]), ds[1..])
  {
    var d, rest := ds[0], ds[1..];
    if i: nat :| RepeatsAt(cursor, ds, i) {
      assert RepeatsAt(Some(d), rest, i - 1);
    }
    if i: nat :| RepeatsAt(Some(d), rest, i) {
      assert RepeatsAt(cursor, ds, i + 1);
    }
  }
}
