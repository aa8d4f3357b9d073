/** The group lease (`metadata/postgres.go`): acquire, renew and release are compare-and-swap
    statements on one row per group, on the database clock. */
module Lease {
  import opened MarketModel

  datatype Row = Row(node: string, expires: int, version: int, acquiredAt: int)

  // ---- the three statements ---------------------------------------------------------

  /** `TryAcquireGroupLease`: free, expired, or already ours. */
  function TryAcquire(row: Option<Row>, now: int, node: string, ttl: int): (Option<Row>, bool) {
    if ttl <= 0 then (row, false)
    else if row.None? then (Some(Row(node, now + ttl, 1, now)), true)
    else if row.value.expires < now || row.value.node == node then
      (Some(Row(node, now + ttl, row.value.version + 1,
                if row.value.node == node then row.value.acquiredAt else now)), true)
    else (row, false)
  }

  /** `RenewGroupLease`: ours, and not yet expired. */
  function TryRenew(row: Option<Row>, now: int, node: string, ttl: int): (Option<Row>, bool) {
    if ttl > 0 && row.Some? && row.value.node == node && row.value.expires >= now then
      (Some(row.value.(expires := now + ttl, version := row.value.version + 1)), true)
    else (row, false)
  }

  /** `ReleaseGroupLease`: delete the row if it is ours, expired or not. */
  function DoRelease(row: Option<Row>, node: string): Option<Row> {
    if row.Some? && row.value.node == node then None else row
  }

  /** The `market_leases` table. */
  class LeaseTable {
    var rows: map<string, Row>
    var now: int

    function At(group: string): Option<Row>
      reads this
    {
      if group in rows then Some(rows[group]) else None
    }

    method TryAcquireGroupLease(group: string, node: string, ttl: int) returns (ok: bool)
      modifies this`rows
      ensures (At(group), ok) == TryAcquire(old(At(group)), now, node, ttl)
      ensures ok <==>
        ttl > 0 && (group !in old(rows) || old(rows)[group].expires < now || old(rows)[group].node == node)
      ensures ok ==> group in rows && rows[group].node == node && rows[group].expires == now + ttl
      ensures !ok ==> rows == old(rows)
      ensures forall g :: g != group ==> At(g) == old(At(g))
    {
      if ttl <= 0 {
        return false;
      }
      if group !in rows {
        rows := rows[group := Row(node, now + ttl, 1, now)];
        return true;
      }
      var row := rows[group];
      if row.expires < now || row.node == node {
        var since := if row.node == node then row.acquiredAt else now;
        rows := rows[group := Row(node, now + ttl, row.version + 1, since)];
        return true;
      }
      return false;
    }

    method RenewGroupLease(group: string, node: string, ttl: int) returns (ok: bool)
      modifies this`rows
      ensures (At(group), ok) == TryRenew(old(At(group)), now, node, ttl)
      ensures ok <==> ttl > 0 && group in old(rows) && old(rows)[group].node == node && now <= old(rows)[group].expires
      ensures ok ==> rows == old(rows)[group :=
        Row(node, now + ttl, old(rows)[group].version + 1, old(rows)[group].acquiredAt)]
      ensures !ok ==> rows == old(rows)
      ensures forall g :: g != group ==> At(g) == old(At(g))
    {
      if ttl <= 0 {
        return false;
      }
      if group in rows && rows[group].node == node && rows[group].expires >= now {
        var row := rows[group];
        rows := rows[group := row.(expires := now + ttl, version := row.version + 1)];
        return true;
      }
      return false;
    }

    method ReleaseGroupLease(group: string, node: string)
      modifies this`rows
      ensures At(group) == DoRelease(old(At(group)), node)
      ensures group !in rows <==> group !in old(rows) || old(rows)[group].node == node
      ensures forall g :: g != group ==> At(g) == old(At(g))
    {
      if group in rows && rows[group].node == node {
        rows := rows - {group};
      }
    }
  }

  // ---- the protocol on one group, with its history ----------------------------------

  /** One uninterrupted tenure: from the acquisition to the current expiry, or to the moment
      of release. */
  datatype Grant = Grant(node: string, from: int, until: int, released: bool)

  datatype State = State(now: int, row: Option<Row>, grants: seq<Grant>)

  datatype Step =
    | Tick(elapsed: nat)
    | Acquire(node: string, ttl: int)
    | Renew(node: string, ttl: int)
    | Release(node: string)

  const FRESH := State(0, None, [])

  function Min(a: int, b: int): int {
    if a < b then a else b
  }

  function Extend(gs: seq<Grant>, until: int): seq<Grant>
    requires gs != []
  {
    gs[..|gs| - 1] + [gs[|gs| - 1].(until := until)]
  }

  function Close(gs: seq<Grant>, at: int): seq<Grant>
    requires gs != []
  {
    var g := gs[|gs| - 1];
    gs[..|gs| - 1] + [g.(until := Min(g.until, at), released := true)]
  }

  /** Is the row ours and still valid? */
  predicate Holds(s: State, node: string) {
    s.row.Some? && s.row.value.node == node && s.row.value.expires >= s.now
  }

  function Apply(s: State, step: Step): State {
    match step
    case Tick(d) => s.(now := s.now + d)
    case Acquire(node, ttl) =>
      var (row, ok) := TryAcquire(s.row, s.now, node, ttl);
      if !ok then s
      else if Holds(s, node) && s.grants != [] then State(s.now, row, Extend(s.grants, s.now + ttl))
      else State(s.now, row, s.grants + [Grant(node, s.now, s.now + ttl, false)])
    case Renew(node, ttl) =>
      var (row, ok) := TryRenew(s.row, s.now, node, ttl);
      if !ok || s.grants == [] then s else State(s.now, row, Extend(s.grants, s.now + ttl))
    case Release(node) =>
      if s.row.Some? && s.row.value.node == node && s.grants != []
      then State(s.now, DoRelease(s.row, node), Close(s.grants, s.now)) else s
  }

  function Run(s: State, steps: seq<Step>): State
    decreases |steps|
  {
    if steps == [] then s else Run(Apply(s, steps[0]), steps[1..])
  }

  /** `a` is over before `b` begins; touching is allowed only at a release. */
  predicate Before(a: Grant, b: Grant) {
    a.until < b.from || (a.released && a.until <= b.from)
  }

  ghost predicate Inv(s: State) {
    && (forall i :: 0 <= i < |s.grants| ==> s.grants[i].from <= s.grants[i].until && s.grants[i].from <= s.now)
    && (forall i, j :: 0 <= i < j < |s.grants| ==> Before(s.grants[i], s.grants[j]))
    && (s.row.Some? ==>
          && s.grants != []
          && var g := s.grants[|s.grants| - 1];
             g.node == s.row.value.node && g.until == s.row.value.expires && !g.released)
    && (s.row.None? && s.grants != [] ==>
          s.grants[|s.grants| - 1].released && s.grants[|s.grants| - 1].until <= s.now)
  }

  lemma StepKeepsInv(s: State, step: Step)
    requires Inv(s)
    ensures Inv(Apply(s, step))
  {
    var t := Apply(s, step);
    if step.Acquire? && |t.grants| > |s.grants| {
      var n := |s.grants|;
      forall i | 0 <= i < n
        ensures Before(t.grants[i], t.grants[n])
      {
        if i < n - 1 {
          assert Before(s.grants[i], s.grants[n - 1]);
        }
      }
    }
  }

  lemma {:induction false} RunKeepsInv(s: State, steps: seq<Step>)
    requires Inv(s)
    ensures Inv(Run(s, steps))
    decreases |steps|
  {
    if steps != [] {
      StepKeepsInv(s, steps[0]);
      RunKeepsInv(Apply(s, steps[0]), steps[1..]);
    }
  }

  /** `node` is a holder at time `t` according to the grants; a released tenure no longer
      counts at the instant of its release. */
  ghost predicate HolderAt(s: State, node: string, t: int) {
    exists i :: 0 <= i < |s.grants| && s.grants[i].node == node && s.grants[i].from <= t
      && (if s.grants[i].released then t < s.grants[i].until else t <= s.grants[i].until)
  }

  /** Over every run of acquire, renew and release calls, with arbitrary ttls, by any nodes:
      tenures of a group never overlap, so at every instant there is at most one holder; and
      the row's owner is the holder until its expiry. */
  lemma AtMostOneHolder(steps: seq<Step>, a: string, b: string, t: int)
    ensures var s := Run(FRESH, steps);
      && (forall i, j :: 0 <= i < j < |s.grants| ==> Before(s.grants[i], s.grants[j]))
      && (HolderAt(s, a, t) && HolderAt(s, b, t) ==> a == b)
      && (s.row.Some? && s.now <= t <= s.row.value.expires ==> HolderAt(s, s.row.value.node, t))
  {
    RunKeepsInv(FRESH, steps);
    var s := Run(FRESH, steps);
    if HolderAt(s, a, t) && HolderAt(s, b, t) {
      var i :| 0 <= i < |s.grants| && s.grants[i].node == a && s.grants[i].from <= t
        && (if s.grants[i].released then t < s.grants[i].until else t <= s.grants[i].until);
      var j :| 0 <= j < |s.grants| && s.grants[j].node == b && s.grants[j].from <= t
        && (if s.grants[j].released then t < s.grants[j].until else t <= s.grants[j].until);
      assert i < j ==> Before(s.grants[i], s.grants[j]);
      assert j < i ==> Before(s.grants[j], s.grants[i]);
      assert i == j;
    }
  }

  predicate Expired(s: State) {
    s.row.None? || s.row.value.expires < s.now
  }

  /** No renewal revives an expired lease: without an acquisition it stays expired. */
  lemma {:induction false} OnlyAcquisitionRevives(s: State, steps: seq<Step>)
    requires Expired(s) && forall i :: 0 <= i < |steps| ==> !steps[i].Acquire?
    ensures Expired(Run(s, steps))
    ensures |Run(s, steps).grants| == |s.grants|
    decreases |steps|
  {
    if steps != [] {
      OnlyAcquisitionRevives(Apply(s, steps[0]), steps[1..]);
    }
  }

  ghost predicate RowLives(s: State, steps: seq<Step>)
    decreases |steps|
  {
    s.row.Some? && (steps == [] || RowLives(Apply(s, steps[0]), steps[1..]))
  }

  /** While the row lives its version strictly grows with every change: equal versions mean
      the identical row. */
  lemma {:induction false} VersionIdentifiesRow(s: State, steps: seq<Step>)
    requires RowLives(s, steps)
    ensures Run(s, steps).row.Some?
    ensures Run(s, steps).row.value.version >= s.row.value.version
    ensures Run(s, steps).row.value.version == s.row.value.version ==> Run(s, steps).row == s.row
    decreases |steps|
  {
    if steps != [] {
      VersionIdentifiesRow(Apply(s, steps[0]), steps[1..]);
    }
  }

  // ---- what a call does, field by field ---------------------------------------------

  /** An acquisition succeeds exactly for a free, expired or own lease, and then owns it from now to
      `now + ttl`; a new owner counts from now, an old one keeps its time of acquisition. */
  lemma AcquireOutcome(s: State, node: string, ttl: int)
    ensures var t := Apply(s, Acquire(node, ttl));
      if ttl > 0 && (s.row.None? || s.row.value.expires < s.now || s.row.value.node == node) then
        t.row == Some(Row(node, s.now + ttl, if s.row.None? then 1 else s.row.value.version + 1,
                          if s.row.Some? && s.row.value.node == node then s.row.value.acquiredAt else s.now))
      else t.row == s.row
  {
  }

  /** A renewal succeeds exactly for an own lease that has not expired, and then moves the expiry to
      `now + ttl`, counts the version up, and leaves owner and time of acquisition alone. */
  lemma RenewOutcome(s: State, node: string, ttl: int)
    requires Inv(s)
    ensures var t := Apply(s, Renew(node, ttl));
      if ttl > 0 && s.row.Some? && s.row.value.node == node && s.now <= s.row.value.expires then
        t.row == Some(Row(node, s.now + ttl, s.row.value.version + 1, s.row.value.acquiredAt))
      else t.row == s.row
  {
  }

  /** The steps that `node` and everybody else may take while `node` renews in time: no more than
      `ttl` passes since its last renewal, `since` units ago; others may do what they like. */
  predicate InTime(steps: seq<Step>, node: string, ttl: int, since: int)
    decreases |steps|
  {
    steps == [] ||
    match steps[0]
    case Tick(d) => since + d <= ttl && InTime(steps[1..], node, ttl, since + d)
    case Renew(n, t) =>
      if n == node then t == ttl && InTime(steps[1..], node, ttl, 0) else InTime(steps[1..], node, ttl, since)
    case Acquire(n, _) => n != node && InTime(steps[1..], node, ttl, since)
    case Release(n) => n != node && InTime(steps[1..], node, ttl, since)
  }

  ghost predicate HoldsThroughout(s: State, steps: seq<Step>, node: string)
    decreases |steps|
  {
    Holds(s, node) && (steps == [] || HoldsThroughout(Apply(s, steps[0]), steps[1..], node))
  }

  /** Liveness of the heartbeat: a holder that renews with the same ttl at intervals of at most that
      ttl stays the holder throughout, whatever the other nodes attempt. */
  lemma {:induction false} HeartbeatKeepsLease(s: State, steps: seq<Step>, node: string, ttl: int, since: int)
    requires Inv(s) && ttl > 0 && 0 <= since <= ttl
    requires s.row.Some? && s.row.value.node == node && s.row.value.expires == s.now - since + ttl
    requires InTime(steps, node, ttl, since)
    ensures HoldsThroughout(s, steps, node)
    decreases |steps|
  {
    if steps != [] {
      StepKeepsInv(s, steps[0]);
      var since' := match steps[0]
        case Tick(d) => since + d
        case Renew(n, _) => (if n == node then 0 else since)
        case _ => since;
      HeartbeatKeepsLease(Apply(s, steps[0]), steps[1..], node, ttl, since');
    }
  }
}
