/** Partition maintenance over time: writes go on while a pass runs, the clock moves, and a pass
    can be cut off between any two of its statements. The advisory lock admits one pass at a
    time. */
module PartitionRuns {
  import opened MarketModel
  import opened Partitions

  /** Where a pass is. `made` says that the table for `start` exists but is not registered yet,
      `removed` that the table of the first name is gone but not forgotten yet. */
  datatype Pass =
    | Creating(now: int, start: int, made: bool)
    | Dropping(now: int, names: seq<int>, removed: bool)

  /** `completed` is when the last pass that ran to its end had started; the clock
      starts at 0. `rejected` records each write that found no partition: the
      clock, and the last complete pass before it. `dropped` records each row that was
      dropped: its ingestion time and the clock. */
  datatype State = State(
    clock: int,
    store: Store,
    pass: Option<Pass>,
    completed: Option<int>,
    rejected: set<(int, Option<int>)>,
    dropped: set<(int, int)>)

  datatype Step =
    | Tick(elapsed: nat)
    | Write
    | Begin
    | CreateTable
    | RegisterTable
    | ListExpired(names: seq<int>)
    | DropTable
    | ForgetTable
    | Finish
    | Abort

  const INIT := State(0, Store(map[], map[]), None, None, {}, {})

  predicate MoreToCreate(c: Config, now: int, start: int) {
    start < now + c.horizon || start == HourOf(now)
  }

  ghost predicate Enabled(c: Config, s: State, step: Step) {
    match step
    case Tick(_) => true
    case Write => true
    case Begin => s.pass.None?
    case CreateTable =>
      && s.pass.Some? && s.pass.value.Creating? && !s.pass.value.made
      && MoreToCreate(c, s.pass.value.now, s.pass.value.start)
    case RegisterTable => s.pass.Some? && s.pass.value.Creating? && s.pass.value.made
    case ListExpired(names) =>
      && s.pass.Some? && s.pass.value.Creating? && !s.pass.value.made
      && !MoreToCreate(c, s.pass.value.now, s.pass.value.start)
      && (forall p :: p in names <==> p in s.store.registry && s.store.registry[p] <= Cutoff(c, s.pass.value.now))
    case DropTable => s.pass.Some? && s.pass.value.Dropping? && s.pass.value.names != [] && !s.pass.value.removed
    case ForgetTable => s.pass.Some? && s.pass.value.Dropping? && s.pass.value.names != [] && s.pass.value.removed
    case Finish => s.pass.Some? && s.pass.value.Dropping? && s.pass.value.names == []
    case Abort => s.pass.Some?
  }

  /** A row ingested at `t` goes to the partition of its hour. */
  function Insert(s: Store, t: int): Store
    requires Covers(s, t)
  {
    s.(tables := s.tables[HourOf(t) := s.tables[HourOf(t)] + multiset{t}])
  }

  function RowsOf(s: Store, p: int): multiset<int> {
    if p in s.tables then s.tables[p] else multiset{}
  }

  function Apply(c: Config, s: State, step: Step): State
    requires Enabled(c, s, step)
  {
    match step
    case Tick(d) => s.(clock := s.clock + d)
    case Write =>
      if Covers(s.store, s.clock) then s.(store := Insert(s.store, s.clock))
      else s.(rejected := s.rejected + {(s.clock, s.completed)})
    case Begin => s.(pass := Some(Creating(s.clock, HourOf(s.clock), false)))
    case CreateTable =>
      s.(store := MakeTable(s.store, s.pass.value.start), pass := Some(s.pass.value.(made := true)))
    case RegisterTable =>
      s.(store := Register(s.store, s.pass.value.start),
         pass := Some(Creating(s.pass.value.now, s.pass.value.start + HOUR, false)))
    case ListExpired(names) => s.(pass := Some(Dropping(s.pass.value.now, names, false)))
    case DropTable =>
      var p := s.pass.value.names[0];
      s.(store := RemoveTable(s.store, p), pass := Some(s.pass.value.(removed := true)),
         dropped := s.dropped + (set t | t in RowsOf(s.store, p) :: (t, s.clock)))
    case ForgetTable =>
      s.(store := Forget(s.store, s.pass.value.names[0]),
         pass := Some(Dropping(s.pass.value.now, s.pass.value.names[1..], false)))
    case Finish => s.(completed := Some(s.pass.value.now), pass := None)
    case Abort => s.(pass := None)
  }

  ghost predicate Executable(c: Config, s: State, steps: seq<Step>)
    decreases |steps|
  {
    steps == [] || (Enabled(c, s, steps[0]) && Executable(c, Apply(c, s, steps[0]), steps[1..]))
  }

  ghost function Run(c: Config, s: State, steps: seq<Step>): State
    requires Executable(c, s, steps)
    decreases |steps|
  {
    if steps == [] then s else Run(c, Apply(c, s, steps[0]), steps[1..])
  }

  // ---- the invariant ----------------------------------------------------------------

  /** Every hour of the stretch has a table. */
  ghost predicate HasTables(s: Store, lo: int, hi: int) {
    forall h :: InStretch(h, lo, hi) ==> h in s.tables
  }

  ghost predicate PassOK(c: Config, s: State, pass: Pass)
    requires ValidConfig(c)
  {
    && pass.now <= s.clock
    && match pass
       case Creating(now, start, made) =>
         && Aligned(start) && HourOf(now) <= start && HasTables(s.store, HourOf(now), start)
         && (made ==> start in s.store.tables && MoreToCreate(c, now, start))
         && (start > HourOf(now) ==> start - HOUR < now + c.horizon || start == HourOf(now) + HOUR)
       case Dropping(now, names, _) =>
         && HasTables(s.store, HourOf(now), Boundary(c, now))
         && (forall p :: p in names ==> Aligned(p) && p + HOUR <= Cutoff(c, now))
         && (forall p :: p in s.store.registry && s.store.registry[p] <= Cutoff(c, now) ==> p in names)
  }

  ghost predicate Inv(c: Config, s: State)
    requires ValidConfig(c)
  {
    && WellFormed(s.store)
    && (s.pass.Some? ==> PassOK(c, s, s.pass.value))
    && (s.completed.Some? ==>
          s.completed.value <= s.clock && HasTables(s.store, HourOf(s.clock), Boundary(c, s.completed.value)))
    && (forall r :: r in s.rejected && r.1.Some? ==> Boundary(c, r.1.value) <= r.0)
    && (forall d :: d in s.dropped ==> d.1 - d.0 >= c.retention)
  }

  lemma HourGrows(t: int, u: int)
    requires t <= u
    ensures HourOf(t) <= HourOf(u)
  {
    HourFacts(t);
    HourFacts(u);
    if HourOf(t) > HourOf(u) {
      AlignedGap(HourOf(t), HourOf(u));
    }
  }

  lemma TickKeepsInv(c: Config, s: State, d: nat)
    requires ValidConfig(c) && Inv(c, s)
    ensures Inv(c, Apply(c, s, Tick(d)))
  {
    HourGrows(s.clock, s.clock + d);
  }

  /** Before the boundary of the last complete pass, the current hour has its table. */
  lemma CoveredNow(c: Config, s: State)
    requires ValidConfig(c) && Inv(c, s) && s.completed.Some? && s.clock < Boundary(c, s.completed.value)
    ensures Covers(s.store, s.clock)
  {
    HourFacts(s.clock);
    assert InStretch(HourOf(s.clock), HourOf(s.clock), Boundary(c, s.completed.value));
  }

  lemma WriteKeepsInv(c: Config, s: State)
    requires ValidConfig(c) && Inv(c, s)
    ensures Inv(c, Apply(c, s, Write))
  {
    HourFacts(s.clock);
    if Covers(s.store, s.clock) {
      assert forall h :: h in Insert(s.store, s.clock).tables <==> h in s.store.tables;
    }
    if s.completed.Some? && s.clock < Boundary(c, s.completed.value) {
      CoveredNow(c, s);
    }
  }

  lemma CreateKeepsInv(c: Config, s: State, step: Step)
    requires ValidConfig(c) && Inv(c, s) && Enabled(c, s, step)
    requires step.Begin? || step.CreateTable? || step.RegisterTable?
    ensures Inv(c, Apply(c, s, step))
  {
    HourFacts(s.clock);
    if step.RegisterTable? {
      var pass := s.pass.value;
      forall h | InStretch(h, HourOf(pass.now), pass.start + HOUR)
        ensures h in s.store.tables
      {
        if h > pass.start {
          AlignedGap(h, pass.start);
        } else if h < pass.start {
          assert InStretch(h, HourOf(pass.now), pass.start);
        }
      }
    }
  }

  lemma ListKeepsInv(c: Config, s: State, names: seq<int>)
    requires ValidConfig(c) && Inv(c, s) && Enabled(c, s, ListExpired(names))
    ensures Inv(c, Apply(c, s, ListExpired(names)))
  {
    var pass := s.pass.value;
    HourFacts(pass.now);
    LoopEndsAtBoundary(c, pass.now, pass.start);
  }

  lemma DropKeepsInv(c: Config, s: State)
    requires ValidConfig(c) && Inv(c, s) && Enabled(c, s, DropTable)
    ensures Inv(c, Apply(c, s, DropTable))
  {
    var pass := s.pass.value;
    var p := pass.names[0];
    assert p in pass.names;
    HourGrows(pass.now, s.clock);
    var t := Apply(c, s, DropTable);
    forall d | d in t.dropped
      ensures d.1 - d.0 >= c.retention
    {
      if d !in s.dropped {
        assert d.0 in RowsOf(s.store, p);
      }
    }
  }

  lemma ForgetKeepsInv(c: Config, s: State)
    requires ValidConfig(c) && Inv(c, s) && Enabled(c, s, ForgetTable)
    ensures Inv(c, Apply(c, s, ForgetTable))
  {
    var names := s.pass.value.names;
    assert names == [names[0]] + names[1..];
  }

  lemma FinishKeepsInv(c: Config, s: State)
    requires ValidConfig(c) && Inv(c, s) && Enabled(c, s, Finish)
    ensures Inv(c, Apply(c, s, Finish))
  {
    HourGrows(s.pass.value.now, s.clock);
  }

  lemma StepKeepsInv(c: Config, s: State, step: Step)
    requires ValidConfig(c) && Inv(c, s) && Enabled(c, s, step)
    ensures Inv(c, Apply(c, s, step))
  {
    match step
    case Tick(d) => TickKeepsInv(c, s, d);
    case Write => WriteKeepsInv(c, s);
    case ListExpired(names) => ListKeepsInv(c, s, names);
    case DropTable => DropKeepsInv(c, s);
    case ForgetTable => ForgetKeepsInv(c, s);
    case Finish => FinishKeepsInv(c, s);
    case Abort =>
    case _ => CreateKeepsInv(c, s, step);
  }

  lemma {:induction false} RunKeepsInv(c: Config, s: State, steps: seq<Step>)
    requires ValidConfig(c) && Inv(c, s) && Executable(c, s, steps)
    ensures Inv(c, Run(c, s, steps))
    decreases |steps|
  {
    if steps != [] {
      StepKeepsInv(c, s, steps[0]);
      RunKeepsInv(c, Apply(c, s, steps[0]), steps[1..]);
    }
  }

  // ---- main results -----------------------------------------------------------------

  /** In every run of writes and passes, whatever passes were cut off and wherever: partitions
      are aligned hours that hold only their own rows; a write before the boundary of the last
      complete pass always finds its partition, now and at every earlier moment of the run; and
      no row was ever dropped before it had reached the retention. */
  lemma WritesFindPartitions(c: Config, steps: seq<Step>)
    requires ValidConfig(c) && Executable(c, INIT, steps)
    ensures var s := Run(c, INIT, steps);
      && WellFormed(s.store)
      && (s.completed.Some? && s.clock < Boundary(c, s.completed.value) ==> Covers(s.store, s.clock))
      && (forall r :: r in s.rejected && r.1.Some? ==> Boundary(c, r.1.value) <= r.0)
      && (forall d :: d in s.dropped ==> d.1 - d.0 >= c.retention)
  {
    RunKeepsInv(c, INIT, steps);
    var s := Run(c, INIT, steps);
    if s.completed.Some? && s.clock < Boundary(c, s.completed.value) {
      CoveredNow(c, s);
    }
  }

  /** Every write comes less than the horizon after the start of a complete pass. */
  ghost predicate KeptUp(c: Config, s: State, steps: seq<Step>)
    requires Executable(c, s, steps)
    decreases |steps|
  {
    steps == [] ||
    (&& (steps[0].Write? ==> s.completed.Some? && s.clock < s.completed.value + c.horizon)
     && KeptUp(c, Apply(c, s, steps[0]), steps[1..]))
  }

  lemma {:induction false} KeptUpRejectsNothing(c: Config, s: State, steps: seq<Step>)
    requires ValidConfig(c) && Inv(c, s) && Executable(c, s, steps) && KeptUp(c, s, steps)
    ensures Run(c, s, steps).rejected == s.rejected
    decreases |steps|
  {
    if steps != [] {
      if steps[0].Write? {
        BoundaryFacts(c, s.completed.value);
        CoveredNow(c, s);
      }
      StepKeepsInv(c, s, steps[0]);
      KeptUpRejectsNothing(c, Apply(c, s, steps[0]), steps[1..]);
    }
  }

  /** As long as complete passes are less than the horizon old, no write is ever rejected. */
  lemma HorizonSuffices(c: Config, steps: seq<Step>)
    requires ValidConfig(c) && Executable(c, INIT, steps) && KeptUp(c, INIT, steps)
    ensures Run(c, INIT, steps).rejected == {}
  {
    KeptUpRejectsNothing(c, INIT, steps);
  }

  /** Whenever a pass completes, every row in a registered partition is younger, at the time the
      pass started, than the retention plus one hour. */
  lemma CompletePassBoundsAge(c: Config, steps: seq<Step>)
    requires ValidConfig(c) && Executable(c, INIT, steps) && Enabled(c, Run(c, INIT, steps), Finish)
    ensures var s := Run(c, INIT, steps);
      forall p, t :: p in s.store.registry && t in RowsOf(s.store, p) ==> s.pass.value.now - t < c.retention + HOUR
  {
    RunKeepsInv(c, INIT, steps);
  }

  // ---- what interruption costs ------------------------------------------------------

  /** A row in a table that no registry entry and no running pass will ever reach again. */
  ghost predicate Leaked(s: State, p: int, t: int) {
    && p !in s.store.registry && t in RowsOf(s.store, p) && p < HourOf(s.clock)
    && (s.pass.Some? ==>
          && p < HourOf(s.pass.value.now)
          && (s.pass.value.Creating? ==> p < s.pass.value.start)
          && (s.pass.value.Dropping? ==> p !in s.pass.value.names))
  }

  lemma LeakedStays(c: Config, s: State, step: Step, p: int, t: int)
    requires Leaked(s, p, t) && Enabled(c, s, step)
    ensures Leaked(Apply(c, s, step), p, t)
  {
    match step
    case Tick(d) => HourGrows(s.clock, s.clock + d);
    case ListExpired(names) => assert p !in names;
    case ForgetTable =>
      var names := s.pass.value.names;
      assert forall q :: q in names[1..] ==> q in names;
    case DropTable => assert s.pass.value.names[0] in s.pass.value.names;
    case _ =>
  }

  lemma {:induction false} LeakedForGood(c: Config, s: State, steps: seq<Step>, p: int, t: int)
    requires Leaked(s, p, t) && Executable(c, s, steps)
    ensures Leaked(Run(c, s, steps), p, t)
    decreases |steps|
  {
    if steps != [] {
      LeakedStays(c, s, steps[0], p, t);
      LeakedForGood(c, Apply(c, s, steps[0]), steps[1..], p, t);
    }
  }

  lemma RunOfOne(c: Config, s: State, step: Step, rest: seq<Step>)
    requires Enabled(c, s, step) && Executable(c, Apply(c, s, step), rest)
    ensures Executable(c, s, [step] + rest) && Run(c, s, [step] + rest) == Run(c, Apply(c, s, step), rest)
  {
    assert ([step] + rest)[1..] == rest;
  }

  /** A pass is cut off between creating a table and registering it, a row is written, and the
      hour goes by. */
  function CutOff(): seq<Step> {
    [Begin] + ([CreateTable] + ([Write] + ([Abort] + ([Tick(HOUR)] + []))))
  }

  /** Retention has a hole: after such a run the row is never dropped, however many complete
      passes follow. */
  lemma CutOffPassLeaksRow(c: Config, more: seq<Step>)
    requires ValidConfig(c)
    ensures Executable(c, INIT, CutOff())
    ensures Executable(c, Run(c, INIT, CutOff()), more) ==> 0 in RowsOf(Run(c, Run(c, INIT, CutOff()), more).store, 0)
  {
    var s1 := Apply(c, INIT, Begin);
    var s2 := Apply(c, s1, CreateTable);
    var s3 := Apply(c, s2, Write);
    assert Covers(s2.store, 0) && 0 in s3.store.tables[0];
    var s4 := Apply(c, s3, Abort);
    var s5 := Apply(c, s4, Tick(HOUR));
    RunOfOne(c, s4, Tick(HOUR), []);
    RunOfOne(c, s3, Abort, [Tick(HOUR)] + []);
    RunOfOne(c, s2, Write, [Abort] + ([Tick(HOUR)] + []));
    RunOfOne(c, s1, CreateTable, [Write] + ([Abort] + ([Tick(HOUR)] + [])));
    RunOfOne(c, INIT, Begin, [CreateTable] + ([Write] + ([Abort] + ([Tick(HOUR)] + []))));
    assert Leaked(s5, 0, 0);
    if Executable(c, s5, more) {
      LeakedForGood(c, s5, more, 0, 0);
    }
  }
}
