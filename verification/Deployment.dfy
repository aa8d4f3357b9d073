/** One delta input of one group in the whole deployment: nodes compete for the lease, their
    group workers start and stop input workers, and those ingest one partition. */
module Deployment {
  import InputManager
  import Ownership
  import Ingestion
  import IngestionDeltas
  import IngestionProofs
  import FactLaws
  import StoredFacts

  /** An input worker: its node and its position among those its group worker has started. */
  type Place = (string, nat)

  /** `ids` names, for each running worker of the input, the worker of the ingestion protocol
      that it is; `unused` has not been used as a name yet. */
  datatype State = State(
    group: Ownership.State,
    input: string,
    partition: Ingestion.State,
    ids: map<Place, int>,
    unused: int)

  datatype Step = Own(own: Ownership.Step) | Ingest(ingest: Ingestion.Step)

  predicate Enabled(s: State, step: Step) {
    match step
    case Own(x) => Ownership.Enabled(s.group, x)
    case Ingest(x) => !x.Start? && !x.Exit? && Ingestion.Enabled(s.partition, x)
  }

  /** How many input workers the group worker on `n` has started so far. */
  function Started(g: Ownership.State, n: string): nat {
    var slot := Ownership.SlotOf(g, n);
    if Ownership.HasWorker(slot) && slot.worker.inputs.Some? then |slot.worker.inputs.value.runs| else 0
  }

  /** The step starts a worker for the input. */
  predicate Starts(s: State, x: Ownership.Step)
    requires Ownership.Enabled(s.group, x)
  {
    x.Manage? && InputManager.StartsRun(Ownership.SlotOf(s.group, x.node).worker.inputs.value, x.step, s.input)
  }

  /** The input workers that the step ends: one that exits, or all on a node that dies. */
  function Ended(s: State, x: Ownership.Step): set<Place> {
    if x.Manage? && x.step.RunExits? then {(x.node, x.step.run)} * s.ids.Keys
    else if x.NodeDies? then set p | p in s.ids && p.0 == x.node
    else {}
  }

  /** Lets a worker of the ingestion protocol appear. */
  function Appear(p: Ingestion.State, id: int): Ingestion.State {
    Ingestion.With(p, id, Ingestion.NewWorker(p.committed + 1))
  }

  function Names(ids: map<Place, int>, places: set<Place>): set<int> {
    set p | p in places && p in ids :: ids[p]
  }

  ghost function Apply(s: State, step: Step): State
    requires Enabled(s, step)
  {
    match step
    case Ingest(x) => s.(partition := Ingestion.Apply(s.partition, x))
    case Own(x) =>
      var g := Ownership.Apply(s.group, x);
      if Starts(s, x) then
        State(g, s.input, Appear(s.partition, s.unused), s.ids[(x.node, Started(s.group, x.node)) := s.unused],
              s.unused + 1)
      else
        var gone := Ended(s, x);
        State(g, s.input, s.partition.(workers := s.partition.workers - Names(s.ids, gone)), s.ids - gone, s.unused)
  }

  ghost predicate Executable(s: State, steps: seq<Step>)
    decreases |steps|
  {
    steps == [] || (Enabled(s, steps[0]) && Executable(Apply(s, steps[0]), steps[1..]))
  }

  ghost function Run(s: State, steps: seq<Step>): State
    requires Executable(s, steps)
    decreases |steps|
  {
    if steps == [] then s else Run(Apply(s, steps[0]), steps[1..])
  }

  ghost predicate TimelyRun(s: State, steps: seq<Step>)
    requires Executable(s, steps)
    decreases |steps|
  {
    steps == [] ||
    ((steps[0].Own? ==> Ownership.Timely(s.group, steps[0].own)) && TimelyRun(Apply(s, steps[0]), steps[1..]))
  }

  ghost predicate Init(s: State) {
    && s.group == Ownership.FRESH && Ingestion.Init(s.partition) && s.partition.kind == Ingestion.DeltaKind
    && s.ids == map[]
  }

  // ---- the invariant ----------------------------------------------------------------

  predicate RunsInput(s: State, p: Place) {
    Ownership.RunsAt(Ownership.SlotOf(s.group, p.0), p.1, s.input)
  }

  ghost predicate Inv(s: State) {
    && Ownership.Inv(s.group) && IngestionDeltas.SoloInv(s.partition)
    && (forall p :: p in s.ids <==> RunsInput(s, p))
    && Named(s.ids, s.partition.workers)
  }

  /** The protocol's workers are exactly the named ones. */
  ghost predicate Named(ids: map<Place, int>, workers: map<int, Ingestion.Worker>) {
    && (forall p :: p in ids ==> ids[p] in workers)
    && (forall id :: id in workers ==> exists p :: p in ids && ids[p] == id)
  }

  lemma NobodyNamed(workers: map<int, Ingestion.Worker>)
    requires Named(map[], workers)
    ensures workers == map[]
  {
    assert forall id :: id !in workers;
  }

  lemma AtMostOnePlace(s: State, p: Place, q: Place)
    requires Inv(s) && p in s.ids && q in s.ids
    ensures p == q
  {
    Ownership.OneConsumer(s.group, s.input, p.0, p.1, q.0, q.1);
  }

  /** The names follow the input workers that run. */
  lemma RunsAfter(s: State, x: Ownership.Step, p: Place)
    requires Ownership.Inv(s.group) && (p in s.ids <==> RunsInput(s, p)) && Ownership.Enabled(s.group, x)
    ensures var t := Apply(s, Own(x)); p in t.ids <==> RunsInput(t, p)
  {
    if x.Tick? || x.node != p.0 {
      Ownership.OtherSlots(s.group, x, p.0);
    } else if x.Manage? {
      ManagedRuns(s, x, p);
    } else {
      Ownership.RunsAtAfter(s.group, x, p.1, s.input);
    }
  }

  lemma ManagedRuns(s: State, x: Ownership.Step, p: Place)
    requires (p in s.ids <==> RunsInput(s, p)) && Ownership.Enabled(s.group, x) && x.Manage? && x.node == p.0
    ensures var t := Apply(s, Own(x)); p in t.ids <==> RunsInput(t, p)
  {
    InputManager.LiveAfter(Ownership.SlotOf(s.group, x.node).worker.inputs.value, x.step, p.1, s.input);
  }

  /** A worker for the input starts only where none is running. */
  lemma StartsAlone(s: State, x: Ownership.Step)
    requires Inv(s) && Ownership.Enabled(s.group, x) && Ownership.Timely(s.group, x) && Starts(s, x)
    ensures s.ids == map[] && s.partition.workers == map[]
  {
    var t := Apply(s, Own(x));
    var place := (x.node, Started(s.group, x.node));
    assert !RunsInput(s, place);
    Ownership.StepKeepsInv(s.group, x);
    RunsAfter(s, x, place);
    assert s.ids == map[] by {
      if p :| p in s.ids {
        RunsAfter(s, x, p);
        Ownership.OneConsumer(t.group, s.input, p.0, p.1, place.0, place.1);
      }
    }
    NobodyNamed(s.partition.workers);
  }

  lemma OwnKeepsInv(s: State, x: Ownership.Step)
    requires Inv(s) && Ownership.Enabled(s.group, x) && Ownership.Timely(s.group, x)
    ensures Inv(Apply(s, Own(x)))
  {
    var t := Apply(s, Own(x));
    Ownership.StepKeepsInv(s.group, x);
    forall p: Place
      ensures p in t.ids <==> RunsInput(t, p)
    {
      RunsAfter(s, x, p);
    }
    if Starts(s, x) {
      StartKeepsPartition(s, x);
    } else {
      EndKeepsPartition(s, Ended(s, x));
    }
  }

  lemma StartKeepsPartition(s: State, x: Ownership.Step)
    requires Inv(s) && Ownership.Enabled(s.group, x) && Ownership.Timely(s.group, x) && Starts(s, x)
    ensures var t := Apply(s, Own(x)); IngestionDeltas.SoloInv(t.partition) && Named(t.ids, t.partition.workers)
  {
    StartsAlone(s, x);
    IngestionDeltas.SoloStep(s.partition, Ingestion.Start(s.unused));
    assert Apply(s, Own(x)).ids[(x.node, Started(s.group, x.node))] == s.unused;
  }

  /** At most one worker ends, and the ingestion protocol sees it exit. */
  lemma EndKeepsPartition(s: State, gone: set<Place>)
    requires Inv(s) && gone <= s.ids.Keys
    ensures IngestionDeltas.SoloInv(s.partition.(workers := s.partition.workers - Names(s.ids, gone)))
    ensures Named(s.ids - gone, s.partition.workers - Names(s.ids, gone))
  {
    if gone == {} {
      assert s.partition.workers - Names(s.ids, gone) == s.partition.workers && s.ids - gone == s.ids;
      assert s.partition.(workers := s.partition.workers) == s.partition;
    } else {
      var p :| p in gone;
      forall q | q in s.ids
        ensures q == p
      {
        AtMostOnePlace(s, p, q);
      }
      OnlyOneEnds(s.ids, s.partition.workers, gone, p);
      IngestionDeltas.SoloStep(s.partition, Ingestion.Exit(s.ids[p]));
    }
  }

  lemma OnlyOneEnds(ids: map<Place, int>, workers: map<int, Ingestion.Worker>, gone: set<Place>, p: Place)
    requires Named(ids, workers) && gone <= ids.Keys && p in gone && forall q :: q in ids ==> q == p
    ensures Names(ids, gone) == {ids[p]} && ids[p] in workers
    ensures Named(ids - gone, workers - Names(ids, gone))
  {
    assert ids - gone == map[];
    forall id | id in workers
      ensures id == ids[p]
    {
    }
  }

  lemma IngestKeepsInv(s: State, x: Ingestion.Step)
    requires Inv(s) && Enabled(s, Ingest(x))
    ensures Inv(Apply(s, Ingest(x)))
  {
    IngestionDeltas.SoloStep(s.partition, x);
    SameWorkers(s.partition, x);
    assert forall p :: RunsInput(Apply(s, Ingest(x)), p) == RunsInput(s, p);
  }

  lemma SameWorkers(p: Ingestion.State, x: Ingestion.Step)
    requires Ingestion.Enabled(p, x) && !x.Start? && !x.Exit?
    ensures Ingestion.Apply(p, x).workers.Keys == p.workers.Keys
  {
  }

  lemma InitInv(s: State)
    requires Init(s)
    ensures Inv(s)
  {
    IngestionProofs.InitInv(s.partition);
  }

  lemma {:induction false} RunKeepsInv(s: State, steps: seq<Step>)
    requires Inv(s) && Executable(s, steps) && TimelyRun(s, steps)
    ensures Inv(Run(s, steps))
    decreases |steps|
  {
    if steps != [] {
      match steps[0] {
        case Own(x) => OwnKeepsInv(s, x);
        case Ingest(x) => IngestKeepsInv(s, x);
      }
      RunKeepsInv(Apply(s, steps[0]), steps[1..]);
    }
  }

  /** End to end. Nodes come, go, crash and take over; group workers reconcile, drain and
      release; input workers replay: in every timely run at most one worker ingests the
      partition at any time, and whenever every delta carries a terminal id the stored deltas
      strictly increase, with no premise on event ids. */
  lemma TimelyDeploymentStoresRisingDeltas(s: State, steps: seq<Step>)
    requires Init(s) && Executable(s, steps) && TimelyRun(s, steps)
    ensures var t := Run(s, steps);
      && (forall i, j :: i in t.partition.workers && j in t.partition.workers ==> i == j)
      && (Ingestion.Terminals(t.partition.log) ==> IngestionDeltas.Rising(t.partition.db.tables.deltas))
  {
    InitInv(s);
    RunKeepsInv(s, steps);
  }

  /** The same by field: the stored last update ids strictly increase where every delta has one, whatever
      the sequences, and the stored sequences where none has. */
  lemma TimelyDeploymentRisesByField(s: State, steps: seq<Step>)
    requires Init(s) && Executable(s, steps) && TimelyRun(s, steps)
    ensures var t := Run(s, steps).partition;
      && (FactLaws.AllHaveUpdateID(t.log) ==> StoredFacts.RisesByUpdateID(t.db.tables.deltas))
      && (FactLaws.OnlySequences(t.log) ==> StoredFacts.RisesBySequence(t.db.tables.deltas))
  {
    TimelyDeploymentStoresRisingDeltas(s, steps);
    InitInv(s);
    RunKeepsOrigin(s, steps);
    var t := Run(s, steps).partition;
    StoredFacts.RisingByField(t.log, t.db.tables.deltas);
  }

  ghost predicate FromLog(s: State) {
    StoredFacts.FromLog(s.partition.db.tables.deltas, s.partition.log)
  }

  lemma {:induction false} RunKeepsOrigin(s: State, steps: seq<Step>)
    requires Inv(s) && FromLog(s) && Executable(s, steps) && TimelyRun(s, steps)
    ensures FromLog(Run(s, steps))
    decreases |steps|
  {
    if steps != [] {
      match steps[0] {
        case Own(x) =>
          OwnKeepsInv(s, x);
          OwnKeepsRows(s, x);
        case Ingest(x) =>
          IngestKeepsInv(s, x);
          StoredFacts.StepKeepsOrigin(s.partition, x);
      }
      RunKeepsOrigin(Apply(s, steps[0]), steps[1..]);
    }
  }

  lemma OwnKeepsRows(s: State, x: Ownership.Step)
    requires Enabled(s, Own(x))
    ensures var t := Apply(s, Own(x)); t.partition.db == s.partition.db && t.partition.log == s.partition.log
  {
  }
}
