/** When exactly overlapping workers leave the delta table equal to the replay of the log. */
module IngestionExact {
  import opened MarketModel
  import opened FactStore
  import opened Ingestion
  import opened IngestionProofs
  import opened IngestionDeltas

  /** `t` is the result of some run on a delta input. */
  ghost predicate Reachable(t: State) {
    exists s: State, steps: seq<Step> :: Reaches(s, steps, t)
  }

  ghost predicate Reaches(s: State, steps: seq<Step>, t: State) {
    Init(s) && s.kind == DeltaKind && Executable(s, steps) && Run(s, steps) == t
  }

  ghost predicate MatchesReplay(t: State) {
    Durable(t.db) < |t.log| && t.db.tables == Replay(t.kind, t.log, Durable(t.db) + 1)
  }

  /** Every run that ends with this log has stored exactly its replay. */
  ghost predicate AlwaysReplay(log: seq<Payload>) {
    forall t: State :: Reachable(t) && t.log == log ==> MatchesReplay(t)
  }

  // ---- extending runs ---------------------------------------------------------------

  lemma {:induction false} RunOneMore(s: State, steps: seq<Step>, step: Step)
    requires Executable(s, steps) && Enabled(Run(s, steps), step)
    ensures Executable(s, steps + [step]) && Run(s, steps + [step]) == Apply(Run(s, steps), step)
    decreases |steps|
  {
    if steps == [] {
      RunOfOne(s, step, []);
      assert [] + [step] == [step] + [];
    } else {
      RunOneMore(Apply(s, steps[0]), steps[1..], step);
      assert (steps + [step])[1..] == steps[1..] + [step];
    }
  }

  lemma ReachStep(t: State, step: Step)
    requires Reachable(t) && Enabled(t, step)
    ensures Reachable(Apply(t, step))
  {
    var s, steps :| Reaches(s, steps, t);
    RunOneMore(s, steps, step);
    assert Reaches(s, steps + [step], Apply(t, step));
  }

  lemma ReachableKeepsInv(t: State)
    requires Reachable(t)
    ensures Inv(t) && TablesInv(t) && t.kind == DeltaKind
  {
    var s, steps :| Reaches(s, steps, t);
    InitInv(s);
    RunKeepsInv(s, steps);
    KindIsFixed(s, steps);
  }

  lemma {:induction false} ReachProduced(t: State, more: seq<Payload>)
    requires Reachable(t)
    ensures Reachable(t.(log := t.log + more))
    decreases |more|
  {
    if more == [] {
      assert t.(log := t.log + more) == t;
    } else {
      ReachStep(t, Produce(more[0]));
      var t' := Apply(t, Produce(more[0]));
      ReachProduced(t', more[1..]);
      assert t.log + more == t'.log + more[1..];
    }
  }

  // ---- one worker that processes message by message ---------------------------------

  predicate Idle(w: Worker, n: int) {
    w.loaded && w.next == n && w.horizon == 0 && w.cached < n && w.pending == [] && !w.bad && w.phase == Reading
  }

  /** One worker has processed everything there is. */
  ghost predicate CaughtUp(t: State) {
    Reachable(t) && t.workers.Keys == {0} && Idle(t.workers[0], |t.log|)
  }

  lemma FreshStart() returns (t: State)
    ensures CaughtUp(t) && t.log == []
  {
    var s := State(DeltaKind, "input", 0, 1, [], -1, EMPTY_DB, map[], {});
    assert Reaches(s, [], s);
    ReachStep(s, Start(0));
    var s1 := Apply(s, Start(0));
    ReachStep(s1, Load(0));
    t := Apply(s1, Load(0));
  }

  /** The next message arrives and is read. */
  lemma ReadNext(t: State, p: Payload) returns (u: State)
    requires CaughtUp(t)
    ensures Reachable(u) && u.log == t.log + [p] && u.db == t.db && u.workers.Keys == {0}
    ensures u.workers[0] == Prepare(DeltaKind, t.workers[0], p)
  {
    ReachableKeepsInv(t);
    ReachStep(t, Produce(p));
    var t' := Apply(t, Produce(p));
    assert t'.log[|t.log|] == p;
    ReachStep(t', Fetch(0));
    u := Apply(t', Fetch(0));
  }

  lemma FlushNext(u: State) returns (t: State)
    requires Reachable(u) && Live(u, 0, Reading) && u.workers.Keys == {0} && |u.workers[0].pending| == 1
    requires !u.workers[0].bad
    requires u.workers[0].next == |u.log| && u.workers[0].horizon == 0
    ensures CaughtUp(t) && t.log == u.log
    ensures t.db == Write(u.db, BatchOf(u.kind, u.inputID, u.partition, u.workers[0]))
  {
    var w := u.workers[0];
    ReachableKeepsInv(u);
    assert RecordOK(u, w, 0);
    assert u.workers == map[0 := w];
    ReachStep(u, BeginFlush(0));
    var u1 := u.(workers := map[0 := w.(phase := Flushing)]);
    assert Apply(u, BeginFlush(0)) == u1;
    t := FlushStarted(u1, w);
  }

  lemma FlushStarted(u: State, w: Worker) returns (t: State)
    requires w.loaded && |w.pending| == 1 && !w.bad && w.next == |u.log| && w.horizon == 0 && LastOffset(w) < |u.log|
    requires u.workers == map[0 := w.(phase := Flushing)] && Reachable(u)
    ensures CaughtUp(t) && t.log == u.log
    ensures t.db == Write(u.db, BatchOf(u.kind, u.inputID, u.partition, w))
  {
    ReachStep(u, WriteBatch(0, true));
    var db := Write(u.db, BatchOf(u.kind, u.inputID, u.partition, w));
    assert BatchOf(u.kind, u.inputID, u.partition, u.workers[0]) == BatchOf(u.kind, u.inputID, u.partition, w);
    var u2 := u.(db := db, workers := map[0 := w.(phase := BatchWritten)]);
    assert Apply(u, WriteBatch(0, true)) == u2;
    ReachStep(u2, CommitBatch(0, true));
    t := Apply(u2, CommitBatch(0, true));
  }

  lemma SkipNext(u: State) returns (t: State)
    requires Reachable(u) && Live(u, 0, Reading) && u.workers.Keys == {0} && u.workers[0].pending == []
    requires u.workers[0].bad
    requires Idle(u.workers[0].(bad := false), |u.log|)
    ensures CaughtUp(t) && t.log == u.log
  {
    ReachStep(u, WritePoison(0, Stored));
    var u1 := Apply(u, WritePoison(0, Stored));
    ReachStep(u1, CommitPoison(0, true));
    t := Apply(u1, CommitPoison(0, true));
  }

  lemma ProcessNext(t: State, p: Payload) returns (t': State)
    requires CaughtUp(t)
    ensures CaughtUp(t') && t'.log == t.log + [p]
  {
    var u := ReadNext(t, p);
    if u.workers[0].bad {
      t' := SkipNext(u);
    } else {
      t' := FlushNext(u);
    }
  }

  lemma {:induction false} ProcessAll(log: seq<Payload>) returns (t: State)
    ensures CaughtUp(t) && t.log == log
  {
    if log == [] {
      t := FreshStart();
    } else {
      var front := ProcessAll(log[..|log| - 1]);
      t := ProcessNext(front, log[|log| - 1]);
      assert log == log[..|log| - 1] + [log[|log| - 1]];
    }
  }

  // ---- a twin is dropped ------------------------------------------------------------

  lemma CaughtUpExact(t: State)
    requires CaughtUp(t) && Terminals(t.log) && NoTwins(t.log)
    ensures t.kind == DeltaKind && t.db.tables == Replay(DeltaKind, t.log, |t.log|)
    ensures CursorAt(t, t.workers[0].cursor, |t.log|)
  {
    ReachableKeepsInv(t);
    var w := t.workers[0];
    assert WorkerOK(t, w) && PendingExact(t, w);
    GapIsGarbage(t, |t.log|);
  }

  lemma TwinIsRefused(t: State, p: Payload)
    requires CaughtUp(t) && Terminals(t.log) && NoTwins(t.log) && Twin(t.log + [p], |t.log|)
    ensures Prepare(DeltaKind, t.workers[0], p).pending == [Record(|t.log|, None)]
    ensures !Prepare(DeltaKind, t.workers[0], p).bad
  {
    CaughtUpExact(t);
    ReplayOfPrefix(DeltaKind, t.log, t.log + [p], |t.log|);
  }

  /** From a state that has caught up, a twin comes in, is read and flushed: nothing is stored
      for it, and the durable offset moves past it. */
  lemma TwinIsDropped(t: State, p: Payload) returns (u: State)
    requires CaughtUp(t) && Terminals(t.log) && NoTwins(t.log) && Twin(t.log + [p], |t.log|)
    ensures CaughtUp(u) && u.log == t.log + [p] && Durable(u.db) == |t.log|
    ensures u.db.tables == Replay(DeltaKind, t.log, |t.log|)
  {
    CaughtUpExact(t);
    TwinIsRefused(t, p);
    var r := ReadNext(t, p);
    u := FlushNext(r);
    ReachableKeepsInv(r);
    var w := r.workers[0];
    BatchIsValid(r, w);
    WriteNewIsFold(r, w);
    assert w.pending[..0] == [];
    assert LastOffset(w) == |t.log| > Durable(t.db) by {
      ReachableKeepsInv(t);
    }
  }

  lemma {:induction false} FirstTwin(log: seq<Payload>, n: nat) returns (o: nat)
    requires n <= |log| && exists i :: 0 <= i < n && Twin(log, i)
    ensures o < |log| && Twin(log, o) && forall i :: 0 <= i < o ==> !Twin(log, i)
  {
    if exists i :: 0 <= i < n - 1 && Twin(log, i) {
      o := FirstTwin(log, n - 1);
    } else {
      o := n - 1;
    }
  }

  lemma TwinOfPrefix(log: seq<Payload>, o: nat, i: nat)
    requires i < o <= |log|
    ensures Twin(log[..o], i) == Twin(log, i)
  {
    ReplayOfPrefix(DeltaKind, log[..o], log, i);
  }

  /** Everything before the first twin is processed, the twin is dropped. */
  lemma RunToTwin(log: seq<Payload>, o: nat) returns (u: State)
    requires Terminals(log) && o < |log| && Twin(log, o) && forall i :: 0 <= i < o ==> !Twin(log, i)
    ensures CaughtUp(u) && u.log == log[..o + 1] && Durable(u.db) == o
    ensures u.db.tables == Replay(DeltaKind, log, o)
  {
    var front := log[..o];
    forall i | 0 <= i < o
      ensures !Twin(front, i) && front[i] == log[i]
    {
      TwinOfPrefix(log, o, i);
    }
    assert log[..o + 1] == front + [log[o]];
    TwinOfPrefix(log, o + 1, o);
    ReplayOfPrefix(DeltaKind, front, log, o);
    var t := ProcessAll(front);
    u := TwinIsDropped(t, log[o]);
  }

  lemma TwinBreaksReplay(log: seq<Payload>)
    requires Terminals(log) && !NoTwins(log)
    ensures !AlwaysReplay(log)
  {
    var o := FirstTwin(log, |log|);
    var u := RunToTwin(log, o);
    ReachProduced(u, log[o + 1..]);
    var v := u.(log := u.log + log[o + 1..]);
    assert v.log == log;
    TwinCounts(log, o);
    ReachableKeepsInv(v);
    assert !MatchesReplay(v);
  }

  lemma TwinCounts(log: seq<Payload>, o: nat)
    requires o < |log| && Twin(log, o)
    ensures Replay(DeltaKind, log, o + 1) != Replay(DeltaKind, log, o)
  {
    assert Replay(DeltaKind, log, o + 1) == ApplyFact(Replay(DeltaKind, log, o), o, log[o].fact);
    assert |Replay(DeltaKind, log, o + 1).deltas| == |Replay(DeltaKind, log, o).deltas| + 1;
  }

  /** Exactly-once for deltas, exactly. For a log whose deltas all carry a terminal id: every
      run that any number of workers can produce has stored exactly the replay of the log up
      to its durable offset if and only if no new maximum repeats the event id of the delta
      that set the previous one. */
  lemma DeltaTableIsReplayExactlyWithoutTwins(log: seq<Payload>)
    requires Terminals(log)
    ensures AlwaysReplay(log) <==> NoTwins(log)
  {
    if NoTwins(log) {
      forall t: State | Reachable(t) && t.log == log
        ensures MatchesReplay(t)
      {
        ReachableKeepsInv(t);
      }
    } else {
      TwinBreaksReplay(log);
    }
  }
}
