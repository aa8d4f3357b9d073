/** The acknowledgement handshake between snapshot consumers (`snapshot_input_worker.go`) and
    the receive loop of a group worker (`worker.go`), as a step machine over any number of
    workers and consumers. A goroutine that has exited or crashed simply takes no more steps. */
module SnapshotAck {
  import opened MarketModel
  import opened OrderBook

  type InputID = string

  /** What decoding yields at each offset of an input; `None` is an undecodable record. */
  datatype Config = Config(rank: Rank, maxPending: int, log: (InputID, nat) -> Option<OrderBookSnapshot>)

  const CHANNEL_CAPACITY := 8

  /** A message on the snapshot channel. Its position among all sends of the worker names its
      `done` channel. */
  datatype Result = Result(consumer: nat, input: InputID, offset: nat, snapshot: OrderBookSnapshot)

  datatype Pc = Fetching | Sending(offset: nat) | Waiting(offset: nat, ticket: nat) | Committing(offset: nat)

  /** One consumer session, feeding the worker `worker`. */
  datatype Consumer = Consumer(worker: nat, input: InputID, next: nat, pc: Pc)

  /** One group worker. The channel holds `sent[received..]`; `acked` are the closed `done`
      channels; `owed` counts failed delta applies whose reset is still to come; `history` is
      what the book has seen, and `at[t]` when it saw result `t`. */
  datatype Worker = Worker(
    book: BookState,
    owed: nat,
    sent: seq<Result>,
    received: nat,
    acked: set<nat>,
    history: seq<Event>,
    at: seq<nat>)

  /** `committed[i]` is the offset at which the next session on input `i` starts. */
  datatype State = State(committed: map<InputID, nat>, workers: seq<Worker>, consumers: seq<Consumer>)

  datatype Step =
    | StartWorker
    | StartConsumer(worker: nat, input: InputID)
    | Fetch(consumer: nat)
    | Send(consumer: nat)
    | Receive(worker: nat)
    | FeedDelta(worker: nat, delta: OrderBookDelta)
    | ResetBook(worker: nat)
    | Proceed(consumer: nat)
    | Commit(consumer: nat, recorded: bool)

  const INIT := State(map[], [], [])
  const FRESH_WORKER := Worker(EMPTY_STATE, 0, [], 0, {}, [], [])

  function Position(s: State, input: InputID): nat {
    if input in s.committed then s.committed[input] else 0
  }

  predicate Enabled(s: State, step: Step) {
    match step
    case StartWorker => true
    case StartConsumer(w, _) => w < |s.workers|
    case Fetch(c) => c < |s.consumers| && s.consumers[c].pc.Fetching?
    case Send(c) =>
      && c < |s.consumers| && s.consumers[c].pc.Sending? && s.consumers[c].worker < |s.workers|
      && var w := s.workers[s.consumers[c].worker];
         |w.sent| - w.received < CHANNEL_CAPACITY
    case Receive(w) => w < |s.workers| && s.workers[w].received < |s.workers[w].sent|
    case FeedDelta(w, _) => w < |s.workers|
    case ResetBook(w) => w < |s.workers| && s.workers[w].owed > 0
    case Proceed(c) =>
      && c < |s.consumers| && s.consumers[c].pc.Waiting? && s.consumers[c].worker < |s.workers|
      && s.consumers[c].pc.ticket in s.workers[s.consumers[c].worker].acked
    case Commit(c, _) => c < |s.consumers| && s.consumers[c].pc.Committing?
  }

  // ---- the steps --------------------------------------------------------------------

  function Fetched(cfg: Config, c: Consumer): Consumer {
    c.(next := c.next + 1,
       pc := if cfg.log(c.input, c.next).Some? then Sending(c.next) else Fetching)
  }

  /** The receive loop takes the oldest result and closes `done` only if it was applied. */
  function Received(cfg: Config, w: Worker): Worker
    requires w.received < |w.sent|
  {
    var snapshot := w.sent[w.received].snapshot;
    var (book, ok) := OnSnapshot(cfg.rank, w.book, snapshot);
    Worker(book, w.owed, w.sent, w.received + 1, if ok then w.acked + {w.received} else w.acked,
           w.history + [Snapshot(snapshot)], w.at + [|w.history|])
  }

  /** The first locked section of `onDeltaApplied`. */
  function SawDelta(cfg: Config, w: Worker, d: OrderBookDelta): Worker {
    var (book, result) := OrderBook.TryDelta(w.book, cfg.maxPending, d);
    w.(book := book, owed := if Failed(result) then w.owed + 1 else w.owed, history := w.history + [Try(d)])
  }

  /** The second one, after a failure. */
  function WasReset(w: Worker): Worker
    requires w.owed > 0
  {
    w.(book := EMPTY_STATE, owed := w.owed - 1, history := w.history + [Reset])
  }

  function Apply(cfg: Config, s: State, step: Step): State
    requires Enabled(s, step)
  {
    match step
    case StartWorker => s.(workers := s.workers + [FRESH_WORKER])
    case StartConsumer(w, input) =>
      s.(consumers := s.consumers + [Consumer(w, input, Position(s, input), Fetching)])
    case Fetch(c) => s.(consumers := s.consumers[c := Fetched(cfg, s.consumers[c])])
    case Send(c) =>
      var me := s.consumers[c];
      var w := s.workers[me.worker];
      var snapshot := cfg.log(me.input, me.pc.offset);
      if snapshot.None? then s
      else
        s.(workers := s.workers[me.worker :=
             w.(sent := w.sent + [Result(c, me.input, me.pc.offset, snapshot.value)])],
           consumers := s.consumers[c := me.(pc := Waiting(me.pc.offset, |w.sent|))])
    case Receive(w) => s.(workers := s.workers[w := Received(cfg, s.workers[w])])
    case FeedDelta(w, d) => s.(workers := s.workers[w := SawDelta(cfg, s.workers[w], d)])
    case ResetBook(w) => s.(workers := s.workers[w := WasReset(s.workers[w])])
    case Proceed(c) =>
      var me := s.consumers[c];
      s.(consumers := s.consumers[c := me.(pc := Committing(me.pc.offset))])
    case Commit(c, recorded) =>
      var me := s.consumers[c];
      s.(committed := if recorded then s.committed[me.input := me.pc.offset + 1] else s.committed,
         consumers := s.consumers[c := me.(pc := Fetching)])
  }

  predicate Executable(cfg: Config, s: State, steps: seq<Step>)
    decreases |steps|
  {
    steps == [] || (Enabled(s, steps[0]) && Executable(cfg, Apply(cfg, s, steps[0]), steps[1..]))
  }

  function Run(cfg: Config, s: State, steps: seq<Step>): State
    requires Executable(cfg, s, steps)
    decreases |steps|
  {
    if steps == [] then s else Run(cfg, Apply(cfg, s, steps[0]), steps[1..])
  }

  // ---- what was applied -------------------------------------------------------------

  /** The book of `w` when it was handed result `t`: the fold of everything it saw before. */
  function BookBefore(cfg: Config, w: Worker, t: nat): BookState
    requires t < |w.at| && w.at[t] <= |w.history|
  {
    Play(cfg.rank, cfg.maxPending, EMPTY_STATE, w.history[..w.at[t]])
  }

  /** `applySnapshot` returned success for result `t` of worker `w`. */
  predicate Succeeded(cfg: Config, w: Worker, t: nat) {
    && t < |w.sent| && t < |w.at| && w.at[t] < |w.history|
    && w.history[w.at[t]] == Snapshot(w.sent[t].snapshot)
    && OnSnapshot(cfg.rank, BookBefore(cfg, w, t), w.sent[t].snapshot).1
  }

  predicate Carries(w: Worker, t: nat, input: InputID, offset: nat) {
    t < |w.sent| && w.sent[t].input == input && w.sent[t].offset == offset
  }

  /** Some worker has acknowledged the message at `offset` of `input`. */
  ghost predicate Acknowledged(s: State, input: InputID, offset: nat) {
    exists i, t: nat :: 0 <= i < |s.workers| && t in s.workers[i].acked && Carries(s.workers[i], t, input, offset)
  }

  /** Some worker's book has successfully applied the message at `offset` of `input`. */
  ghost predicate SnapshotApplied(cfg: Config, s: State, input: InputID, offset: nat) {
    exists i, t: nat ::
      0 <= i < |s.workers| && Carries(s.workers[i], t, input, offset) && Succeeded(cfg, s.workers[i], t)
  }

  // ---- the invariant ----------------------------------------------------------------

  /** Nothing at `offset` remains to be applied. */
  ghost predicate Handled(cfg: Config, s: State, input: InputID, offset: nat) {
    cfg.log(input, offset).None? || Acknowledged(s, input, offset)
  }

  ghost predicate HandledBelow(cfg: Config, s: State, input: InputID, bound: nat) {
    forall o :: 0 <= o < bound ==> Handled(cfg, s, input, o)
  }

  /** Result `t` was handed to the book, and its `done` closed exactly if that succeeded. */
  ghost predicate TicketOK(cfg: Config, w: Worker, t: nat) {
    && t < |w.at| <= |w.sent| && w.at[t] < |w.history|
    && w.history[w.at[t]] == Snapshot(w.sent[t].snapshot)
    && (t in w.acked <==> Succeeded(cfg, w, t))
  }

  /** The book folds the history, and takes results in the order they were sent. */
  ghost predicate WorkerOK(cfg: Config, w: Worker) {
    && |w.at| == w.received <= |w.sent| <= w.received + CHANNEL_CAPACITY
    && w.book == Play(cfg.rank, cfg.maxPending, EMPTY_STATE, w.history)
    && (forall t :: 0 <= t < |w.at| ==> TicketOK(cfg, w, t))
    && (forall t, u :: 0 <= t < u < |w.at| ==> w.at[t] < w.at[u])
    && (forall t :: t in w.acked ==> t < |w.at|)
  }

  /** Result `r` on worker `i` was sent by a consumer of that worker after all earlier ones. */
  ghost predicate SentOK(cfg: Config, s: State, i: nat, r: Result) {
    && r.consumer < |s.consumers|
    && s.consumers[r.consumer].worker == i && s.consumers[r.consumer].input == r.input
    && cfg.log(r.input, r.offset) == Some(r.snapshot)
    && HandledBelow(cfg, s, r.input, r.offset)
  }

  predicate Unacked(w: Worker, t: nat, c: nat) {
    t < |w.sent| && w.sent[t].consumer == c && t !in w.acked
  }

  /** The only unacknowledged result of consumer `c`, if any, is the one it waits for. */
  ghost predicate ConsumerOK(cfg: Config, s: State, c: nat)
    requires c < |s.consumers|
  {
    var me := s.consumers[c];
    && me.worker < |s.workers|
    && (match me.pc
        case Fetching => HandledBelow(cfg, s, me.input, me.next)
        case Sending(o) => me.next == o + 1 && HandledBelow(cfg, s, me.input, o) && cfg.log(me.input, o).Some?
        case Waiting(o, t) =>
          && me.next == o + 1 && HandledBelow(cfg, s, me.input, o)
          && Carries(s.workers[me.worker], t, me.input, o) && s.workers[me.worker].sent[t].consumer == c
        case Committing(o) => me.next == o + 1 && HandledBelow(cfg, s, me.input, o + 1))
    && (forall t: nat :: Unacked(s.workers[me.worker], t, c) ==> me.pc.Waiting? && me.pc.ticket == t)
  }

  ghost predicate Inv(cfg: Config, s: State) {
    && (forall i :: 0 <= i < |s.workers| ==> WorkerOK(cfg, s.workers[i]))
    && (forall i, t :: 0 <= i < |s.workers| && 0 <= t < |s.workers[i].sent| ==> SentOK(cfg, s, i, s.workers[i].sent[t]))
    && (forall c :: 0 <= c < |s.consumers| ==> ConsumerOK(cfg, s, c))
    && (forall input :: HandledBelow(cfg, s, input, Position(s, input)))
  }

  // ---- main results -----------------------------------------------------------------

  /** In every interleaving, an offset below the committed position has been applied with
      success by some worker's book, exactly unless it holds an undecodable record. */
  lemma CommittedOnlyAfterApplied(cfg: Config, steps: seq<Step>, input: InputID, offset: nat)
    requires Executable(cfg, INIT, steps)
    requires offset < Position(Run(cfg, INIT, steps), input)
    ensures SnapshotApplied(cfg, Run(cfg, INIT, steps), input, offset) <==> cfg.log(input, offset).Some?
  {
    var s := Run(cfg, INIT, steps);
    RunKeepsInv(cfg, INIT, steps);
    AcknowledgedIsApplied(cfg, s, input, offset);
    assert Handled(cfg, s, input, offset);
    if Acknowledged(s, input, offset) {
      var i, t :| 0 <= i < |s.workers| && t in s.workers[i].acked && Carries(s.workers[i], t, input, offset);
      assert SentOK(cfg, s, i, s.workers[i].sent[t]);
    }
  }

  /** No consumer ever has two unacknowledged snapshots, and while it is fetching, sending or
      committing it has none. */
  lemma OneOutstanding(cfg: Config, steps: seq<Step>, i: nat, t: nat, i': nat, t': nat, c: nat)
    requires Executable(cfg, INIT, steps)
    requires var s := Run(cfg, INIT, steps);
      i < |s.workers| && i' < |s.workers| && Unacked(s.workers[i], t, c) && Unacked(s.workers[i'], t', c)
    ensures i == i' && t == t'
    ensures c < |Run(cfg, INIT, steps).consumers| && Run(cfg, INIT, steps).consumers[c].pc.Waiting?
  {
    var s := Run(cfg, INIT, steps);
    RunKeepsInv(cfg, INIT, steps);
    assert SentOK(cfg, s, i, s.workers[i].sent[t]) && SentOK(cfg, s, i', s.workers[i'].sent[t']);
    assert ConsumerOK(cfg, s, c);
  }

  /** No result of the input beyond `offset` was ever sent to a worker. */
  ghost predicate NothingSentBehind(s: State, input: InputID, offset: nat) {
    forall i, t: nat, o: nat :: 0 <= i < |s.workers| && Carries(s.workers[i], t, input, o) ==> o <= offset
  }

  /** A decodable snapshot whose sides are out of order is never committed past, and nothing
      behind it is ever handed to a book, across all restarts. */
  lemma BadSnapshotBlocksInput(cfg: Config, steps: seq<Step>, input: InputID, offset: nat)
    requires Executable(cfg, INIT, steps)
    requires cfg.log(input, offset).Some? && !SnapshotOrdered(cfg.rank, cfg.log(input, offset).value)
    ensures Position(Run(cfg, INIT, steps), input) <= offset
    ensures NothingSentBehind(Run(cfg, INIT, steps), input, offset)
  {
    var s := Run(cfg, INIT, steps);
    RunKeepsInv(cfg, INIT, steps);
    if Handled(cfg, s, input, offset) {
      HandledIsOrdered(cfg, s, input, offset);
    }
    assert HandledBelow(cfg, s, input, Position(s, input));
    forall i, t: nat, o: nat | 0 <= i < |s.workers| && Carries(s.workers[i], t, input, o)
      ensures o <= offset
    {
      assert SentOK(cfg, s, i, s.workers[i].sent[t]);
    }
  }

  /** The receive loop took the snapshot this consumer waits for, and did not acknowledge it. */
  predicate Refused(s: State, me: Consumer) {
    && me.pc.Waiting? && me.worker < |s.workers|
    && me.pc.ticket < s.workers[me.worker].received && me.pc.ticket !in s.workers[me.worker].acked
  }

  /** A consumer whose snapshot was refused waits for ever: only a new session can move on. */
  lemma {:induction false} RefusedConsumerIsStuck(cfg: Config, s: State, steps: seq<Step>, c: nat)
    requires Inv(cfg, s) && Executable(cfg, s, steps)
    requires c < |s.consumers|
    requires Refused(s, s.consumers[c])
    ensures c < |Run(cfg, s, steps).consumers| && Run(cfg, s, steps).consumers[c] == s.consumers[c]
    decreases |steps|
  {
    if steps != [] {
      StepKeepsInv(cfg, s, steps[0]);
      RefusedStays(cfg, s, steps[0], c);
      RefusedConsumerIsStuck(cfg, Apply(cfg, s, steps[0]), steps[1..], c);
    }
  }

  /** Every step of any consumer or worker keeps the invariant. */
  lemma StepKeepsInv(cfg: Config, s: State, step: Step)
    requires Inv(cfg, s) && Enabled(s, step)
    ensures Inv(cfg, Apply(cfg, s, step))
  {
    var s' := Apply(cfg, s, step);
    StepGrows(cfg, s, step);
    forall i | 0 <= i < |s'.workers|
      ensures WorkerOK(cfg, s'.workers[i])
    {
      StepKeepsWorkers(cfg, s, step, i);
    }
    forall i, t | 0 <= i < |s'.workers| && 0 <= t < |s'.workers[i].sent|
      ensures SentOK(cfg, s', i, s'.workers[i].sent[t])
    {
      StepKeepsSent(cfg, s, step, i, t);
    }
    forall c | 0 <= c < |s'.consumers|
      ensures ConsumerOK(cfg, s', c)
    {
      StepKeepsConsumer(cfg, s, step, c);
    }
    forall input: InputID
      ensures HandledBelow(cfg, s', input, Position(s', input))
    {
      if step.Commit? && Position(s', input) != Position(s, input) {
        assert ConsumerOK(cfg, s, step.consumer);
        assert HandledBelow(cfg, s, input, Position(s', input));
      }
      assert HandledBelow(cfg, s, input, Position(s, input));
      HandledStays(cfg, s, s', input, Position(s', input));
    }
  }

  lemma {:induction false} RunKeepsInv(cfg: Config, s: State, steps: seq<Step>)
    requires Inv(cfg, s) && Executable(cfg, s, steps)
    ensures Inv(cfg, Run(cfg, s, steps))
    decreases |steps|
  {
    if steps != [] {
      StepKeepsInv(cfg, s, steps[0]);
      RunKeepsInv(cfg, Apply(cfg, s, steps[0]), steps[1..]);
    }
  }

  // ---- acknowledgements are permanent -----------------------------------------------

  predicate WorkerGrew(w: Worker, w': Worker) {
    && w.sent <= w'.sent && w.acked <= w'.acked && w.received <= w'.received
    && (forall t :: t in w'.acked - w.acked ==> w.received <= t)
  }

  ghost predicate Grew(s: State, s': State) {
    && |s.workers| <= |s'.workers| && |s.consumers| <= |s'.consumers|
    && (forall i :: 0 <= i < |s.workers| ==> WorkerGrew(s.workers[i], s'.workers[i]))
    && (forall c :: 0 <= c < |s.consumers| ==>
          s'.consumers[c].worker == s.consumers[c].worker && s'.consumers[c].input == s.consumers[c].input)
  }

  lemma StepGrows(cfg: Config, s: State, step: Step)
    requires Inv(cfg, s) && Enabled(s, step)
    ensures Grew(s, Apply(cfg, s, step))
  {
    var s' := Apply(cfg, s, step);
    if step.Receive? {
      assert WorkerGrew(s.workers[step.worker], Received(cfg, s.workers[step.worker]));
    }
  }

  lemma HandledStays(cfg: Config, s: State, s': State, input: InputID, bound: nat)
    requires Grew(s, s') && HandledBelow(cfg, s, input, bound)
    ensures HandledBelow(cfg, s', input, bound)
  {
    forall o | 0 <= o < bound
      ensures Handled(cfg, s', input, o)
    {
      assert Handled(cfg, s, input, o);
      if cfg.log(input, o).Some? {
        var i, t :| 0 <= i < |s.workers| && t in s.workers[i].acked && Carries(s.workers[i], t, input, o);
        assert WorkerGrew(s.workers[i], s'.workers[i]);
        assert Carries(s'.workers[i], t, input, o);
      }
    }
  }

  // ---- one step ---------------------------------------------------------------------

  /** What happened to a result is settled once it has been received. */
  lemma TicketStays(cfg: Config, w: Worker, w': Worker, t: nat)
    requires TicketOK(cfg, w, t)
    requires w.sent <= w'.sent && w.at <= w'.at && w.history <= w'.history && |w'.at| <= |w'.sent|
    requires t in w'.acked <==> t in w.acked
    ensures TicketOK(cfg, w', t)
  {
    assert w'.history[..w'.at[t]] == w.history[..w.at[t]];
    assert BookBefore(cfg, w', t) == BookBefore(cfg, w, t);
  }

  lemma ReceivedOK(cfg: Config, w: Worker)
    requires WorkerOK(cfg, w) && w.received < |w.sent|
    ensures WorkerOK(cfg, Received(cfg, w))
  {
    var w' := Received(cfg, w);
    forall t | 0 <= t < |w'.at|
      ensures TicketOK(cfg, w', t)
    {
      if t < w.received {
        assert TicketOK(cfg, w, t);
        TicketStays(cfg, w, w', t);
      }
    }
    forall t, u | 0 <= t < u < |w'.at|
      ensures w'.at[t] < w'.at[u]
    {
      assert TicketOK(cfg, w, t);
    }
  }

  /** Whatever else the book sees. */
  lemma OtherEventOK(cfg: Config, w: Worker, w': Worker, e: Event)
    requires WorkerOK(cfg, w) && w' == w.(book := w'.book, owed := w'.owed, history := w.history + [e])
    requires w'.book == OnEvent(cfg.rank, cfg.maxPending, w.book, e)
    ensures WorkerOK(cfg, w')
  {
    forall t | 0 <= t < |w.at|
      ensures TicketOK(cfg, w', t)
    {
      TicketStays(cfg, w, w', t);
    }
  }

  lemma SentMoreOK(cfg: Config, w: Worker, r: Result)
    requires WorkerOK(cfg, w) && |w.sent| - w.received < CHANNEL_CAPACITY
    ensures WorkerOK(cfg, w.(sent := w.sent + [r]))
  {
    var w' := w.(sent := w.sent + [r]);
    forall t | 0 <= t < |w.at|
      ensures TicketOK(cfg, w', t)
    {
      TicketStays(cfg, w, w', t);
    }
  }

  lemma FreshWorkerOK(cfg: Config)
    ensures WorkerOK(cfg, FRESH_WORKER)
  {
  }

  lemma StepKeepsWorkers(cfg: Config, s: State, step: Step, i: nat)
    requires forall j :: 0 <= j < |s.workers| ==> WorkerOK(cfg, s.workers[j])
    requires Enabled(s, step) && i < |Apply(cfg, s, step).workers|
    ensures WorkerOK(cfg, Apply(cfg, s, step).workers[i])
  {
    var w' := Apply(cfg, s, step).workers[i];
    if i == |s.workers| {
      FreshWorkerOK(cfg);
    } else if w' == s.workers[i] {
      assert WorkerOK(cfg, s.workers[i]);
    } else {
      match step
      case Receive(_) => ReceivedOK(cfg, s.workers[i]);
      case FeedDelta(_, d) => OtherEventOK(cfg, s.workers[i], w', Try(d));
      case ResetBook(_) => OtherEventOK(cfg, s.workers[i], w', Reset);
      case Send(c) => SentMoreOK(cfg, s.workers[i], w'.sent[|s.workers[i].sent|]);
    }
  }

  lemma StepKeepsSent(cfg: Config, s: State, step: Step, i: nat, t: nat)
    requires Inv(cfg, s) && Enabled(s, step)
    requires i < |Apply(cfg, s, step).workers| && t < |Apply(cfg, s, step).workers[i].sent|
    ensures SentOK(cfg, Apply(cfg, s, step), i, Apply(cfg, s, step).workers[i].sent[t])
  {
    var s' := Apply(cfg, s, step);
    StepGrows(cfg, s, step);
    var r := s'.workers[i].sent[t];
    if i < |s.workers| && t < |s.workers[i].sent| {
      assert WorkerGrew(s.workers[i], s'.workers[i]);
      assert SentOK(cfg, s, i, s.workers[i].sent[t]);
    } else {
      assert step.Send? && ConsumerOK(cfg, s, step.consumer);
    }
    HandledStays(cfg, s, s', r.input, r.offset);
  }

  /** A consumer that the step does not move keeps its invariant. */
  lemma BystanderOK(cfg: Config, s: State, s': State, c: nat)
    requires Grew(s, s') && c < |s.consumers| && ConsumerOK(cfg, s, c)
    requires s'.consumers[c] == s.consumers[c]
    requires var w := s.consumers[c].worker;
      forall t :: |s.workers[w].sent| <= t < |s'.workers[w].sent| ==> s'.workers[w].sent[t].consumer != c
    ensures ConsumerOK(cfg, s', c)
  {
    var me := s.consumers[c];
    var bound := match me.pc
      case Fetching => me.next
      case Sending(o) => o
      case Waiting(o, _) => o
      case Committing(o) => o + 1;
    HandledStays(cfg, s, s', me.input, bound);
    assert WorkerGrew(s.workers[me.worker], s'.workers[me.worker]);
    forall t: nat | Unacked(s'.workers[me.worker], t, c)
      ensures me.pc.Waiting? && me.pc.ticket == t
    {
      assert Unacked(s.workers[me.worker], t, c);
    }
  }

  /** The consumer that takes the step. */
  lemma MoverOK(cfg: Config, s: State, step: Step)
    requires Inv(cfg, s) && Enabled(s, step)
    requires step.Fetch? || step.Send? || step.Proceed? || step.Commit?
    ensures ConsumerOK(cfg, Apply(cfg, s, step), step.consumer)
  {
    var s' := Apply(cfg, s, step);
    var c := step.consumer;
    var me := s.consumers[c];
    assert ConsumerOK(cfg, s, c);
    var w, w' := s.workers[me.worker], s'.workers[me.worker];
    StepGrows(cfg, s, step);
    forall t: nat | Unacked(w', t, c)
      ensures s'.consumers[c].pc.Waiting? && s'.consumers[c].pc.ticket == t
    {
      assert t < |w.sent| ==> Unacked(w, t, c);
    }
    match step
    case Fetch(_) => HandledStays(cfg, s, s', me.input, me.next);
      if cfg.log(me.input, me.next).None? {
        assert Handled(cfg, s', me.input, me.next);
      }
    case Send(_) => HandledStays(cfg, s, s', me.input, me.pc.offset);
    case Proceed(_) =>
      HandledStays(cfg, s, s', me.input, me.pc.offset);
      assert Carries(s'.workers[me.worker], me.pc.ticket, me.input, me.pc.offset);
      assert Handled(cfg, s', me.input, me.pc.offset);
    case Commit(_, _) => HandledStays(cfg, s, s', me.input, me.pc.offset + 1);
  }

  lemma StepKeepsConsumer(cfg: Config, s: State, step: Step, c: nat)
    requires Inv(cfg, s) && Enabled(s, step) && c < |Apply(cfg, s, step).consumers|
    ensures ConsumerOK(cfg, Apply(cfg, s, step), c)
  {
    var s' := Apply(cfg, s, step);
    StepGrows(cfg, s, step);
    if c == |s.consumers| {
      var me := s'.consumers[c];
      HandledStays(cfg, s, s', me.input, me.next);
      forall t | 0 <= t < |s'.workers[me.worker].sent|
        ensures s'.workers[me.worker].sent[t].consumer != c
      {
        assert SentOK(cfg, s, me.worker, s.workers[me.worker].sent[t]);
      }
    } else if (step.Fetch? || step.Send? || step.Proceed? || step.Commit?) && step.consumer == c {
      MoverOK(cfg, s, step);
    } else {
      assert ConsumerOK(cfg, s, c);
      BystanderOK(cfg, s, s', c);
    }
  }

  // ---- towards the main results -----------------------------------------------------

  lemma AcknowledgedIsApplied(cfg: Config, s: State, input: InputID, offset: nat)
    requires Inv(cfg, s)
    ensures Acknowledged(s, input, offset) <==> SnapshotApplied(cfg, s, input, offset)
  {
    if Acknowledged(s, input, offset) {
      var i, t :| 0 <= i < |s.workers| && t in s.workers[i].acked && Carries(s.workers[i], t, input, offset);
      assert WorkerOK(cfg, s.workers[i]);
      assert TicketOK(cfg, s.workers[i], t);
    }
    if SnapshotApplied(cfg, s, input, offset) {
      var i, t :| 0 <= i < |s.workers| && Carries(s.workers[i], t, input, offset) && Succeeded(cfg, s.workers[i], t);
      assert WorkerOK(cfg, s.workers[i]);
      assert TicketOK(cfg, s.workers[i], t);
    }
  }

  lemma HandledIsOrdered(cfg: Config, s: State, input: InputID, offset: nat)
    requires Inv(cfg, s) && Handled(cfg, s, input, offset) && cfg.log(input, offset).Some?
    ensures SnapshotOrdered(cfg.rank, cfg.log(input, offset).value)
  {
    var i, t :| 0 <= i < |s.workers| && t in s.workers[i].acked && Carries(s.workers[i], t, input, offset);
    assert WorkerOK(cfg, s.workers[i]) && TicketOK(cfg, s.workers[i], t) && SentOK(cfg, s, i, s.workers[i].sent[t]);
  }

  lemma RefusedStays(cfg: Config, s: State, step: Step, c: nat)
    requires Inv(cfg, s) && Enabled(s, step) && c < |s.consumers| && Refused(s, s.consumers[c])
    ensures var s' := Apply(cfg, s, step);
      c < |s'.consumers| && s'.consumers[c] == s.consumers[c] && Refused(s', s'.consumers[c])
  {
    StepGrows(cfg, s, step);
    assert !(step.Proceed? && step.consumer == c);
    RefusalGrows(s, Apply(cfg, s, step), c);
  }

  lemma RefusalGrows(s: State, s': State, c: nat)
    requires Grew(s, s') && c < |s.consumers| && Refused(s, s.consumers[c]) && s'.consumers[c] == s.consumers[c]
    ensures Refused(s', s'.consumers[c])
  {
    var me := s.consumers[c];
    var w, w' := s.workers[me.worker], s'.workers[me.worker];
    assert WorkerGrew(w, w');
    assert me.pc.ticket !in w'.acked - w.acked;
  }
}
