/** Hourly delta partitions (`partitions.go`): created ahead of time, dropped when every row in
    them has expired. Times are integers in the database clock's unit. */
module Partitions {

  /** One hour in nanoseconds. */
  const HOUR: int := 3_600_000_000_000

  /** `Truncate(time.Hour)`. */
  function HourOf(t: int): int {
    t - t % HOUR
  }

  predicate Aligned(t: int) {
    t % HOUR == 0
  }

  /** The partition registry (range start to range end) and the attached tables with the
      ingestion times of their rows. A partition's name is its start hour. */
  datatype Store = Store(registry: map<int, int>, tables: map<int, multiset<int>>)

  datatype Config = Config(retention: int, horizon: int)

  predicate ValidConfig(c: Config) {
    c.retention > 0 && c.horizon >= 0
  }

  // ---- one partition ----------------------------------------------------------------

  /** `CREATE TABLE IF NOT EXISTS ... PARTITION OF`. */
  function MakeTable(s: Store, start: int): Store {
    s.(tables := if start in s.tables then s.tables else s.tables[start := multiset{}])
  }

  /** The registry upsert. */
  function Register(s: Store, start: int): Store {
    s.(registry := s.registry[start := start + HOUR])
  }

  /** `DETACH PARTITION` and `DROP TABLE`: the rows are gone. */
  function RemoveTable(s: Store, start: int): Store {
    s.(tables := s.tables - {start})
  }

  function Forget(s: Store, start: int): Store {
    s.(registry := s.registry - {start})
  }

  /** `createDeltaPartition`: create the table if it is missing, then record it. */
  function Create(s: Store, start: int): Store {
    Register(MakeTable(s, start), start)
  }

  /** `dropDeltaPartition`: detach and drop the table, then forget it. */
  function Drop(s: Store, start: int): Store {
    Forget(RemoveTable(s, start), start)
  }

  /** The exclusive end of what a pass at `now` pre-creates: the first hour boundary at or
      after `now + horizon`, and at least the end of the current hour. */
  function Boundary(c: Config, now: int): int
    requires ValidConfig(c)
  {
    if c.horizon + now % HOUR <= HOUR then HourOf(now) + HOUR
    else HourOf(now + c.horizon + HOUR - 1)
  }

  function Cutoff(c: Config, now: int): int {
    now - c.retention
  }

  // ---- the manager ------------------------------------------------------------------

  class PartitionManager {
    const cfg: Config
    var store: Store

    constructor (cfg: Config, store: Store)
      ensures this.cfg == cfg && this.store == store
    {
      this.cfg := cfg;
      this.store := store;
    }

    /** The creation loop of `maintainAt`. */
    method CreateAhead(now: int)
      requires ValidConfig(cfg)
      modifies this
      ensures Created(old(store), store, HourOf(now), Boundary(cfg, now))
    {
      var current := HourOf(now);
      var horizon := now + cfg.horizon;
      var start := current;
      while start < horizon || start == current
        invariant current <= start && Aligned(start)
        invariant Created(old(store), store, current, start)
        invariant start > current ==> start - HOUR < horizon || start == current + HOUR
        decreases horizon - start, if start == current then 1 else 0
      {
        CreatedExtends(old(store), store, current, start);
        store := Create(store, start);
        start := start + HOUR;
      }
      LoopEndsAtBoundary(cfg, now, start);
    }

    /** The expiry query: names of the partitions that end at or before the cutoff. */
    method ListExpired(cutoff: int) returns (expired: seq<int>)
      ensures forall p :: p in expired <==> p in store.registry && store.registry[p] <= cutoff
    {
      expired := [];
      var todo: set<int> := set p | p in store.registry && store.registry[p] <= cutoff;
      while todo != {}
        invariant forall p :: p in expired || p in todo <==> p in store.registry && store.registry[p] <= cutoff
        decreases |todo|
      {
        HasMember(todo);
        var p: int :| p in todo;
        todo := todo - {p};
        expired := expired + [p];
      }
    }

    /** The expiry loop of `maintainAt`. */
    method DropExpired(now: int)
      modifies this
      ensures Dropped(old(store), store, Cutoff(cfg, now))
    {
      var cutoff := now - cfg.retention;
      var expired := ListExpired(cutoff);
      for i := 0 to |expired|
        invariant GoneAre(old(store), store, expired[..i])
      {
        store := Drop(store, expired[i]);
        assert expired[..i + 1] == expired[..i] + [expired[i]];
      }
      assert expired[..|expired|] == expired;
    }

    /** `maintainAt`: one maintenance pass. */
    method MaintainAt(now: int)
      requires ValidConfig(cfg)
      modifies this
      ensures Maintained(cfg, old(store), store, now)
    {
      CreateAhead(now);
      ghost var mid := store;
      DropExpired(now);
      assert Created(old(store), mid, HourOf(now), Boundary(cfg, now)) && Dropped(mid, store, Cutoff(cfg, now));
    }
  }

  predicate InStretch(p: int, lo: int, hi: int) {
    Aligned(p) && lo <= p < hi
  }

  /** Exactly the hours in `[lo, hi)` have been added; nothing that was there is lost. */
  ghost predicate Created(a: Store, b: Store, lo: int, hi: int) {
    && (forall p :: p in b.registry <==> p in a.registry || InStretch(p, lo, hi))
    && (forall p :: p in b.registry ==>
          b.registry[p] == if InStretch(p, lo, hi) then p + HOUR else a.registry[p])
    && (forall p :: p in b.tables <==> p in a.tables || InStretch(p, lo, hi))
    && (forall p :: p in b.tables ==> b.tables[p] == if p in a.tables then a.tables[p] else multiset{})
  }

  /** Exactly the registered partitions that end at or before the cutoff are gone. */
  ghost predicate Dropped(a: Store, b: Store, cutoff: int) {
    && (forall p :: p in b.registry <==> p in a.registry && a.registry[p] > cutoff)
    && (forall p :: p in b.registry ==> b.registry[p] == a.registry[p])
    && (forall p :: p in b.tables <==> p in a.tables && !(p in a.registry && a.registry[p] <= cutoff))
    && (forall p :: p in b.tables ==> b.tables[p] == a.tables[p])
  }

  /** Exactly the partitions listed in `gone` have been dropped. */
  ghost predicate GoneAre(a: Store, b: Store, gone: seq<int>) {
    && (forall p :: p in b.registry <==> p in a.registry && p !in gone)
    && (forall p :: p in b.registry ==> b.registry[p] == a.registry[p])
    && (forall p :: p in b.tables <==> p in a.tables && p !in gone)
    && (forall p :: p in b.tables ==> b.tables[p] == a.tables[p])
  }

  /** One complete maintenance pass. */
  ghost predicate Maintained(c: Config, a: Store, b: Store, now: int)
    requires ValidConfig(c)
  {
    exists mid: Store :: Created(a, mid, HourOf(now), Boundary(c, now)) && Dropped(mid, b, Cutoff(c, now))
  }

  lemma HasMember(s: set<int>)
    requires s != {}
    ensures exists x :: x in s
  {
    if forall x: int :: x !in s {
      assert false;
    }
  }

  /** Adding the next hour extends the stretch by one hour. */
  lemma CreatedExtends(a: Store, b: Store, lo: int, hi: int)
    requires Created(a, b, lo, hi) && Aligned(lo) && Aligned(hi) && lo <= hi
    ensures Created(a, Create(b, hi), lo, hi + HOUR)
  {
    forall p: int
      ensures InStretch(p, lo, hi + HOUR) <==> InStretch(p, lo, hi) || p == hi
    {
      if Aligned(p) && p != hi {
        AlignedGap(p, hi);
      }
    }
  }

  /** The creation loop stops exactly at the boundary. */
  lemma LoopEndsAtBoundary(c: Config, now: int, end: int)
    requires ValidConfig(c) && Aligned(end) && end > HourOf(now) && end >= now + c.horizon
    requires end - HOUR < now + c.horizon || end == HourOf(now) + HOUR
    ensures end == Boundary(c, now)
  {
    HourFacts(now);
    BoundaryFacts(c, now);
    if end != HourOf(now) + HOUR {
      AlignedGap(end, HourOf(now));
      AlignedGap(end, HourOf(now) + HOUR);
      HourFacts(now + c.horizon + HOUR - 1);
    }
  }

  // ---- what passes guarantee --------------------------------------------------------

  /** Every partition is an aligned hour, and every row lies in its partition's range. Tables
      may exist that an interrupted pass has not registered, and the other way round. */
  ghost predicate WellFormed(s: Store) {
    && (forall p :: p in s.registry ==> Aligned(p) && s.registry[p] == p + HOUR)
    && (forall p :: p in s.tables ==> Aligned(p))
    && (forall p, t :: p in s.tables && t in s.tables[p] ==> p <= t < p + HOUR)
  }

  predicate Covers(s: Store, t: int) {
    HourOf(t) in s.tables
  }

  lemma HourFacts(t: int)
    ensures Aligned(HourOf(t)) && HourOf(t) <= t < HourOf(t) + HOUR
  {
  }

  lemma BoundaryFacts(c: Config, now: int)
    requires ValidConfig(c)
    ensures Aligned(Boundary(c, now))
    ensures Boundary(c, now) >= now + c.horizon && Boundary(c, now) > now
    ensures Boundary(c, now) < now + c.horizon + HOUR || Boundary(c, now) == HourOf(now) + HOUR
  {
  }

  lemma AlignedGap(p: int, q: int)
    requires Aligned(p) && Aligned(q) && p != q
    ensures p + HOUR <= q || q + HOUR <= p
  {
    var i, j := p / HOUR, q / HOUR;
    assert p == HOUR * i && q == HOUR * j;
  }

  /** After a pass: ranges are aligned hours, pairwise disjoint; every instant from the current
      hour up to a boundary at or beyond the horizon has a registered partition with its table;
      no dropped row was younger than the retention; every row that remains in a registered
      partition is younger than the retention plus one hour. */
  lemma PassGuarantees(c: Config, a: Store, b: Store, now: int)
    requires ValidConfig(c) && WellFormed(a) && Maintained(c, a, b, now)
    ensures WellFormed(b)
    ensures forall p, q :: p in b.registry && q in b.registry && p != q ==>
      b.registry[p] <= q || b.registry[q] <= p
    ensures forall t :: HourOf(now) <= t < Boundary(c, now) ==> Covers(b, t) && HourOf(t) in b.registry
    ensures forall p, t :: p in a.tables && p !in b.tables && t in a.tables[p] ==> now - t >= c.retention
    ensures forall p, t :: p in b.registry && p in b.tables && t in b.tables[p] ==> now - t < c.retention + HOUR
  {
    var mid: Store :| Created(a, mid, HourOf(now), Boundary(c, now)) && Dropped(mid, b, Cutoff(c, now));
    HourFacts(now);
    assert WellFormed(mid);
    forall p, q | p in b.registry && q in b.registry && p != q
      ensures b.registry[p] <= q || b.registry[q] <= p
    {
      AlignedGap(p, q);
    }
    forall t | HourOf(now) <= t < Boundary(c, now)
      ensures Covers(b, t) && HourOf(t) in b.registry
    {
      HourFacts(t);
      BoundaryFacts(c, now);
      if HourOf(t) < HourOf(now) {
        AlignedGap(HourOf(t), HourOf(now));
      }
      assert InStretch(HourOf(t), HourOf(now), Boundary(c, now));
    }
  }
}
