/** What becomes of snapshots: exactly which records can be committed past, and exactly when an
    acknowledged snapshot is safe from being wiped. */
module SnapshotOutcomes {
  import opened MarketModel
  import opened OrderBook
  import opened SnapshotAck

  // ---- when an acknowledged snapshot survives ---------------------------------------

  /** The step is a delta that worker `i` fails to apply. */
  predicate FailsAt(cfg: Config, s: State, step: Step, i: nat) {
    && step.FeedDelta? && step.worker == i && i < |s.workers|
    && Failed(TryDelta(s.workers[i].book, cfg.maxPending, step.delta).1)
  }

  /** No delta fails at worker `i` in this run. */
  ghost predicate NoFailure(cfg: Config, s: State, steps: seq<Step>, i: nat)
    requires Executable(cfg, s, steps)
    decreases |steps|
  {
    steps == [] || (!FailsAt(cfg, s, steps[0], i) && NoFailure(cfg, Apply(cfg, s, steps[0]), steps[1..], i))
  }

  ghost predicate ReadyAt(s: State, i: nat) {
    i < |s.workers| && s.workers[i].book.ready
  }

  /** Whatever happens, short of a delta that fails, the book of worker `i` stays loaded. */
  ghost predicate Survives(cfg: Config, s: State, i: nat) {
    forall steps :: Executable(cfg, s, steps) && NoFailure(cfg, s, steps, i) ==> ReadyAt(Run(cfg, s, steps), i)
  }

  /** The snapshot in a ready book survives every continuation in which no delta fails if and only
      if no reset of an earlier failure is outstanding. */
  lemma SurvivesExactlyWithoutOwedReset(cfg: Config, s: State, i: nat)
    requires ReadyAt(s, i)
    ensures Survives(cfg, s, i) <==> s.workers[i].owed == 0
  {
    if s.workers[i].owed == 0 {
      forall steps | Executable(cfg, s, steps) && NoFailure(cfg, s, steps, i)
        ensures ReadyAt(Run(cfg, s, steps), i)
      {
        StaysReady(cfg, s, steps, i);
      }
    } else {
      var t := Apply(cfg, s, ResetBook(i));
      RunFrom(cfg, s, ResetBook(i), t, []);
      var steps := [ResetBook(i)] + [];
      assert steps[1..] == [] && Run(cfg, s, steps) == t;
      assert !t.workers[i].book.ready;
      assert !ReadyAt(t, i);
      assert NoFailure(cfg, s, steps, i);
    }
  }

  lemma {:induction false} StaysReady(cfg: Config, s: State, steps: seq<Step>, i: nat)
    requires ReadyAt(s, i) && s.workers[i].owed == 0 && Executable(cfg, s, steps) && NoFailure(cfg, s, steps, i)
    ensures ReadyAt(Run(cfg, s, steps), i)
    decreases |steps|
  {
    if steps != [] {
      StaysReady(cfg, Apply(cfg, s, steps[0]), steps[1..], i);
    }
  }

  /** A committed snapshot need not survive. After a delta that does not follow the first snapshot
      has failed, and before its reset, a second snapshot is applied, acknowledged and committed:
      the book is ready, and a continuation in which nothing fails empties it. */
  lemma AcknowledgedSnapshotCanBeWiped(cfg: Config, input: InputID, d: OrderBookDelta) returns (steps: seq<Step>)
    requires Good(cfg, input, 0) && Good(cfg, input, 1) && !Follows(FromSnapshot(cfg.log(input, 0).value), d)
    ensures Executable(cfg, INIT, steps)
    ensures var t := Run(cfg, INIT, steps); Position(t, input) == 2 && ReadyAt(t, 0) && !Survives(cfg, t, 0)
  {
    var setup := NewSession(cfg, INIT, input);
    var s := Run(cfg, INIT, setup);
    var first := DeliverOne(cfg, s, 0, 0, input, 0);
    var s1 := Run(cfg, s, first);
    var rest := FailThenLoad(cfg, s1, input, d);
    RunBoth(cfg, s, first, rest);
    RunBoth(cfg, INIT, setup, first + rest);
    steps := setup + (first + rest);
    SurvivesExactlyWithoutOwedReset(cfg, Run(cfg, INIT, steps), 0);
  }

  lemma FailThenLoad(cfg: Config, s: State, input: InputID, d: OrderBookDelta) returns (steps: seq<Step>)
    requires Idle(s, 0, 0, input, 1) && Good(cfg, input, 1) && ReadyAt(s, 0) && !Follows(s.workers[0].book.book, d)
    ensures Executable(cfg, s, steps)
    ensures var t := Run(cfg, s, steps); Position(t, input) == 2 && ReadyAt(t, 0) && t.workers[0].owed > 0
  {
    RefusedAlone(s.workers[0].book, cfg.maxPending, d);
    var s1 := Apply(cfg, s, FeedDelta(0, d));
    var second := DeliverOne(cfg, s1, 0, 0, input, 1);
    RunFrom(cfg, s, FeedDelta(0, d), s1, second);
    steps := [FeedDelta(0, d)] + second;
  }

  lemma RefusedAlone(st: BookState, maxPending: int, d: OrderBookDelta)
    requires st.ready && st.pending == [] && !Follows(st.book, d)
    ensures TryDelta(st, maxPending, d) == (st, Gap)
  {
    assert Drained(st.book, []) == [] && Fold(st.book, []) == st.book;
  }

  // ---- which records are committed past ---------------------------------------------

  /** A decodable snapshot with ordered sides. */
  predicate Good(cfg: Config, input: InputID, o: nat) {
    cfg.log(input, o).Some? && SnapshotOrdered(cfg.rank, cfg.log(input, o).value)
  }

  /** Every decodable snapshot at the offsets `lo..hi-1` is ordered. */
  ghost predicate NoneBad(cfg: Config, input: InputID, lo: nat, hi: nat) {
    forall q :: lo <= q < hi && cfg.log(input, q).Some? ==> Good(cfg, input, q)
  }

  /** Exactly which offsets can be committed past, decodable or not: those at or before a good
      snapshot with no badly ordered one before it. */
  lemma CommittedPastExactly(cfg: Config, input: InputID, o: nat)
    ensures (exists steps :: Executable(cfg, INIT, steps) && Position(Run(cfg, INIT, steps), input) > o) <==>
            (exists p: nat :: p >= o && Good(cfg, input, p) && NoneBad(cfg, input, 0, p))
  {
    if steps :| Executable(cfg, INIT, steps) && Position(Run(cfg, INIT, steps), input) > o {
      var p := Position(Run(cfg, INIT, steps), input) - 1;
      PositionFollowsSnapshot(cfg, INIT, steps);
      forall q: nat | q <= p && cfg.log(input, q).Some?
        ensures Good(cfg, input, q)
      {
        if !Good(cfg, input, q) {
          BadSnapshotBlocksInput(cfg, steps, input, q);
        }
      }
      assert p >= o && Good(cfg, input, p) && NoneBad(cfg, input, 0, p);
    }
    if p: nat :| p >= o && Good(cfg, input, p) && NoneBad(cfg, input, 0, p) {
      var steps := RestartGetsPast(cfg, INIT, input, p);
      assert Executable(cfg, INIT, steps) && Position(Run(cfg, INIT, steps), input) > o;
    }
  }

  /** A restart gets past whatever a failed drain refused: from every state, a new worker and a new
      session can commit any good snapshot from the committed position on, provided that no badly
      ordered one comes before it. */
  lemma RestartGetsPast(cfg: Config, s: State, input: InputID, p: nat) returns (steps: seq<Step>)
    requires Position(s, input) <= p && Good(cfg, input, p) && NoneBad(cfg, input, Position(s, input), p)
    ensures Executable(cfg, s, steps) && Position(Run(cfg, s, steps), input) == p + 1
  {
    var setup := NewSession(cfg, s, input);
    var s1 := Run(cfg, s, setup);
    var w, c := |s.workers|, |s.consumers|;
    var read := ReadUpTo(cfg, s1, w, c, input, Position(s, input), p);
    var last := DeliverOne(cfg, Run(cfg, s1, read), w, c, input, p);
    RunBoth(cfg, s1, read, last);
    RunBoth(cfg, s, setup, read + last);
    steps := setup + (read + last);
  }

  /** Sending, waiting and committing are about decodable records only, so a committed position is
      one past a decodable record. */
  ghost predicate OnDecodable(cfg: Config, s: State) {
    && (forall c :: 0 <= c < |s.consumers| && !s.consumers[c].pc.Fetching? ==>
          cfg.log(s.consumers[c].input, s.consumers[c].pc.offset).Some?)
    && (forall input :: input in s.committed ==>
          s.committed[input] > 0 && cfg.log(input, s.committed[input] - 1).Some?)
  }

  lemma {:induction false} PositionFollowsSnapshot(cfg: Config, s: State, steps: seq<Step>)
    requires OnDecodable(cfg, s) && Executable(cfg, s, steps)
    ensures OnDecodable(cfg, Run(cfg, s, steps))
    decreases |steps|
  {
    if steps != [] {
      PositionFollowsSnapshot(cfg, Apply(cfg, s, steps[0]), steps[1..]);
    }
  }

  // ---- building runs ----------------------------------------------------------------

  lemma RunFrom(cfg: Config, s: State, step: Step, s': State, rest: seq<Step>)
    requires Enabled(s, step) && Apply(cfg, s, step) == s' && Executable(cfg, s', rest)
    ensures Executable(cfg, s, [step] + rest) && Run(cfg, s, [step] + rest) == Run(cfg, s', rest)
  {
    assert ([step] + rest)[1..] == rest;
  }

  lemma {:induction false} RunBoth(cfg: Config, s: State, a: seq<Step>, b: seq<Step>)
    requires Executable(cfg, s, a) && Executable(cfg, Run(cfg, s, a), b)
    ensures Executable(cfg, s, a + b) && Run(cfg, s, a + b) == Run(cfg, Run(cfg, s, a), b)
    decreases |a|
  {
    if a == [] {
      assert a + b == b;
    } else {
      var s' := Apply(cfg, s, a[0]);
      RunBoth(cfg, s', a[1..], b);
      RunFrom(cfg, s, a[0], s', a[1..] + b);
      assert a + b == [a[0]] + (a[1..] + b);
    }
  }

  /** Worker `w` has an empty channel and buffers no delta; its consumer `c` is about to read
      offset `o`. */
  predicate Idle(s: State, w: nat, c: nat, input: InputID, o: nat) {
    && w < |s.workers| && s.workers[w].received == |s.workers[w].sent| && s.workers[w].book.pending == []
    && c < |s.consumers| && s.consumers[c] == Consumer(w, input, o, Fetching)
  }

  lemma NewSession(cfg: Config, s: State, input: InputID) returns (steps: seq<Step>)
    ensures Executable(cfg, s, steps)
    ensures var t := Run(cfg, s, steps);
      && Idle(t, |s.workers|, |s.consumers|, input, Position(s, input))
      && t.committed == s.committed && t.workers[|s.workers|] == FRESH_WORKER
  {
    var s1 := Apply(cfg, s, StartWorker);
    var s2 := Apply(cfg, s1, StartConsumer(|s.workers|, input));
    RunFrom(cfg, s1, StartConsumer(|s.workers|, input), s2, []);
    RunFrom(cfg, s, StartWorker, s1, [StartConsumer(|s.workers|, input)] + []);
    steps := [StartWorker] + ([StartConsumer(|s.workers|, input)] + []);
  }

  /** Reads on to offset `n`, committing every good snapshot on the way. */
  lemma {:induction false} ReadUpTo(cfg: Config, s: State, w: nat, c: nat, input: InputID, o: nat, n: nat)
    returns (steps: seq<Step>)
    requires Idle(s, w, c, input, o) && o <= n && NoneBad(cfg, input, o, n)
    ensures Executable(cfg, s, steps) && Idle(Run(cfg, s, steps), w, c, input, n)
    decreases n - o
  {
    if o == n {
      steps := [];
    } else {
      var first := ReadOne(cfg, s, w, c, input, o);
      var rest := ReadUpTo(cfg, Run(cfg, s, first), w, c, input, o + 1, n);
      RunBoth(cfg, s, first, rest);
      steps := first + rest;
    }
  }

  lemma ReadOne(cfg: Config, s: State, w: nat, c: nat, input: InputID, o: nat) returns (steps: seq<Step>)
    requires Idle(s, w, c, input, o) && (cfg.log(input, o).Some? ==> Good(cfg, input, o))
    ensures Executable(cfg, s, steps) && Idle(Run(cfg, s, steps), w, c, input, o + 1)
  {
    if cfg.log(input, o).Some? {
      steps := DeliverOne(cfg, s, w, c, input, o);
    } else {
      RunFrom(cfg, s, Fetch(c), Apply(cfg, s, Fetch(c)), []);
      steps := [Fetch(c)] + [];
    }
  }

  /** A good snapshot is read, sent, applied, acknowledged and committed. */
  lemma DeliverOne(cfg: Config, s: State, w: nat, c: nat, input: InputID, o: nat) returns (steps: seq<Step>)
    requires Idle(s, w, c, input, o) && Good(cfg, input, o)
    ensures Executable(cfg, s, steps)
    ensures Delivered(s, Run(cfg, s, steps), w, c, cfg.log(input, o).value, input, o)
  {
    var snap := cfg.log(input, o).value;
    var r := Result(c, input, o, snap);
    var s1 := Apply(cfg, s, Fetch(c));
    var s2 := Apply(cfg, s1, Send(c));
    assert s2.workers[w] == s.workers[w].(sent := s.workers[w].sent + [r]);
    var rest := AckOne(cfg, s2, w, c, r);
    RunFrom(cfg, s1, Send(c), s2, rest);
    RunFrom(cfg, s, Fetch(c), s1, [Send(c)] + rest);
    steps := [Fetch(c)] + ([Send(c)] + rest);
  }

  /** The consumer stands behind offset `o`, which is committed, and the book is the snapshot. */
  predicate Delivered(s: State, t: State, w: nat, c: nat, snap: OrderBookSnapshot, input: InputID, o: nat)
    requires w < |s.workers|
  {
    && Idle(t, w, c, input, o + 1) && Position(t, input) == o + 1
    && t.workers[w].book == BookState(true, FromSnapshot(snap), []) && t.workers[w].owed == s.workers[w].owed
  }

  lemma AckOne(cfg: Config, s: State, w: nat, c: nat, r: Result) returns (steps: seq<Step>)
    requires w < |s.workers| && c < |s.consumers| && SnapshotOrdered(cfg.rank, r.snapshot)
    requires |s.workers[w].sent| == s.workers[w].received + 1 && s.workers[w].sent[s.workers[w].received] == r
    requires s.workers[w].book.pending == []
    requires s.consumers[c] == Consumer(w, r.input, r.offset + 1, Waiting(r.offset, s.workers[w].received))
    ensures Executable(cfg, s, steps)
    ensures Delivered(s, Run(cfg, s, steps), w, c, r.snapshot, r.input, r.offset)
  {
    LoadsAlone(cfg.rank, s.workers[w].book, r.snapshot);
    var s1 := Apply(cfg, s, Receive(w));
    var s2 := Apply(cfg, s1, Proceed(c));
    var s3 := Apply(cfg, s2, Commit(c, true));
    RunFrom(cfg, s2, Commit(c, true), s3, []);
    RunFrom(cfg, s1, Proceed(c), s2, [Commit(c, true)] + []);
    RunFrom(cfg, s, Receive(w), s1, [Proceed(c)] + ([Commit(c, true)] + []));
    steps := [Receive(w)] + ([Proceed(c)] + ([Commit(c, true)] + []));
  }

  lemma LoadsAlone(rank: Rank, st: BookState, snap: OrderBookSnapshot)
    requires SnapshotOrdered(rank, snap) && st.pending == []
    ensures OnSnapshot(rank, st, snap) == (BookState(true, FromSnapshot(snap), []), true)
  {
    assert Drained(FromSnapshot(snap), []) == [];
  }
}
