/** One group across all nodes: lease, node slots and the worker life cycle
    (`node.go`, `worker.go`). */
module Ownership {
  import opened MarketModel
  import Lease
  import InputManager

  datatype WorkerState = Starting | Running | Stopping | Stopped | Errored

  predicate Terminal(s: WorkerState) {
    s.Stopped? || s.Errored?
  }

  /** Where the worker's `run` goroutine is. */
  datatype Pc = Created | Booting | LeaseLoop | Draining(goal: WorkerState) | Finished

  /** `inputs` is the input manager, once the worker has started one. */
  datatype Worker = Worker(state: WorkerState, pc: Pc, cancelled: bool, inputs: Option<InputManager.Manager>)

  /** A node's view of the group: nothing, a lease without a worker yet, a worker in the
      `workers` map, or a worker taken out of the map by `stopWorker` and being waited for. */
  datatype Slot = Idle | Leased | Owning(worker: Worker) | Awaiting(worker: Worker)

  datatype State = State(now: int, row: Option<Lease.Row>, slots: map<string, Slot>)

  datatype Step =
    | Tick(elapsed: nat)
    | Acquire(node: string, ttl: int)
    | LoadInputsFails(node: string)
    | StartWorker(node: string)
    | Boot(node: string, consuming: bool)
    | Renew(node: string, ttl: int, errored: bool, applied: bool)
    | CancelWorker(node: string)
    | SeeCancel(node: string)
    | Manage(node: string, step: InputManager.Step)
    | Finish(node: string)
    | RequestStop(node: string)
    | StopDone(node: string)
    | Prune(node: string)
    | NodeDies(node: string)

  function SlotOf(s: State, node: string): Slot {
    if node in s.slots then s.slots[node] else Idle
  }

  predicate HasWorker(slot: Slot) {
    slot.Owning? || slot.Awaiting?
  }

  /** The node is about to run, or runs, a worker that has not reached a terminal state. */
  predicate Active(slot: Slot) {
    slot.Leased? || (HasWorker(slot) && !Terminal(slot.worker.state))
  }

  predicate At(s: State, node: string, pc: Pc) {
    HasWorker(SlotOf(s, node)) && SlotOf(s, node).worker.pc == pc
  }

  predicate Enabled(s: State, step: Step) {
    match step
    case Tick(_) => true
    case Acquire(n, _) => SlotOf(s, n).Idle?
    case LoadInputsFails(n) => SlotOf(s, n).Leased?
    case StartWorker(n) => SlotOf(s, n).Leased?
    case Boot(n, _) => At(s, n, Created) || At(s, n, Booting)
    case Renew(n, _, _, _) => At(s, n, LeaseLoop)
    case CancelWorker(n) => SlotOf(s, n).Owning?
    case SeeCancel(n) => At(s, n, LeaseLoop) && SlotOf(s, n).worker.cancelled
    case Manage(n, step) =>
      && HasWorker(SlotOf(s, n)) && SlotOf(s, n).worker.inputs.Some?
      && InputManager.Enabled(SlotOf(s, n).worker.inputs.value, step)
    case Finish(n) =>
      HasWorker(SlotOf(s, n)) && SlotOf(s, n).worker.pc.Draining? && ManagerDone(SlotOf(s, n).worker)
    case RequestStop(n) => SlotOf(s, n).Owning?
    case StopDone(n) => SlotOf(s, n).Awaiting? && SlotOf(s, n).worker.pc.Finished?
    case Prune(n) => SlotOf(s, n).Owning? && Terminal(SlotOf(s, n).worker.state)
    case NodeDies(_) => true
  }

  /** The owner's wait `<-m.done` is over, or there is no manager. */
  predicate ManagerDone(w: Worker) {
    w.inputs.None? || w.inputs.value.pc.Done?
  }

  /** No input worker of this group worker is running. */
  predicate Quiet(w: Worker) {
    w.inputs.None? || InputManager.Quiet(w.inputs.value)
  }

  /** The lease loop has returned: the manager is told to stop. */
  function Drain(w: Worker, goal: WorkerState): Worker {
    w.(pc := Draining(goal), inputs := if w.inputs.None? then None else Some(InputManager.Cancel(w.inputs.value)))
  }

  /** The premise on time: the clock does not pass the lease's expiry while a node is active
      under it. */
  predicate Timely(s: State, step: Step) {
    step.Tick? && s.row.Some? && Active(SlotOf(s, s.row.value.node)) ==> s.now + step.elapsed <= s.row.value.expires
  }

  function Put(s: State, node: string, slot: Slot): State {
    s.(slots := s.slots[node := slot])
  }

  /** Replaces the worker inside its slot. */
  function PutWorker(s: State, node: string, w: Worker): State
    requires HasWorker(SlotOf(s, node))
  {
    Put(s, node, if SlotOf(s, node).Owning? then Owning(w) else Awaiting(w))
  }

  function Freed(s: State, node: string): State {
    Put(s.(row := Lease.DoRelease(s.row, node)), node, Idle)
  }

  function Apply(s: State, step: Step): State
    requires Enabled(s, step)
  {
    match step
    case Tick(d) => s.(now := s.now + d)
    case Acquire(n, ttl) =>
      var (row, ok) := Lease.TryAcquire(s.row, s.now, n, ttl);
      if ok then Put(s.(row := row), n, Leased) else s
    case LoadInputsFails(n) => Freed(s, n)
    case StartWorker(n) => Put(s, n, Owning(Worker(Starting, Created, false, None)))
    case Boot(n, consuming) =>
      var w := SlotOf(s, n).worker;
      if w.pc.Created? then PutWorker(s, n, w.(state := Starting, pc := Booting))
      else PutWorker(s, n, w.(state := Running, pc := LeaseLoop,
                              inputs := if consuming then Some(InputManager.NEW_MANAGER) else None))
    case Renew(n, ttl, errored, applied) =>
      var w := SlotOf(s, n).worker;
      var (row, ok) := Lease.TryRenew(s.row, s.now, n, ttl);
      if errored || ttl <= 0 then
        PutWorker(s.(row := if applied then row else s.row), n, Drain(w, if w.cancelled then Stopped else Errored))
      else if ok then s.(row := row)
      else PutWorker(s, n, Drain(w, Errored))
    case CancelWorker(n) => PutWorker(s, n, SlotOf(s, n).worker.(cancelled := true))
    case SeeCancel(n) => PutWorker(s, n, Drain(SlotOf(s, n).worker, Stopped))
    case Manage(n, step) =>
      var w := SlotOf(s, n).worker;
      PutWorker(s, n, w.(inputs := Some(InputManager.Apply(w.inputs.value, step))))
    case Finish(n) =>
      var w := SlotOf(s, n).worker;
      PutWorker(s, n, w.(state := w.pc.goal, pc := Finished))
    case RequestStop(n) =>
      var w := SlotOf(s, n).worker;
      Put(s, n, Awaiting(w.(cancelled := true,
                            state := if w.state.Starting? || w.state.Running? then Stopping else w.state)))
    case StopDone(n) => Freed(s, n)
    case Prune(n) => Freed(s, n)
    case NodeDies(n) => Put(s, n, Idle)
  }

  ghost predicate Executable(s: State, steps: seq<Step>)
    decreases |steps|
  {
    steps == [] || (Enabled(s, steps[0]) && Executable(Apply(s, steps[0]), steps[1..]))
  }

  function Run(s: State, steps: seq<Step>): State
    requires Executable(s, steps)
    decreases |steps|
  {
    if steps == [] then s else Run(Apply(s, steps[0]), steps[1..])
  }

  ghost predicate TimelyRun(s: State, steps: seq<Step>)
    requires Executable(s, steps)
    decreases |steps|
  {
    steps == [] || (Timely(s, steps[0]) && TimelyRun(Apply(s, steps[0]), steps[1..]))
  }

  const FRESH := State(0, None, map[])

  ghost predicate WorkerOK(w: Worker) {
    && (w.pc.Finished? <==> Terminal(w.state))
    && (w.inputs.Some? ==> InputManager.Inv(w.inputs.value))
    && (w.pc.Finished? ==> ManagerDone(w))
    && (w.pc.Created? || w.pc.Booting? ==> w.inputs.None?)
    && (w.pc.Draining? ==> Terminal(w.pc.goal))
  }

  ghost predicate Inv(s: State) {
    && (forall n :: HasWorker(SlotOf(s, n)) ==> WorkerOK(SlotOf(s, n).worker))
    && (forall n :: Active(SlotOf(s, n)) ==> s.row.Some? && s.row.value.node == n && s.now <= s.row.value.expires)
  }

  // ---- every step -------------------------------------------------------------------

  /** The worker in the slot that the step touches stays well formed. */
  lemma StepKeepsWorker(s: State, step: Step)
    requires Inv(s) && Enabled(s, step) && !step.Tick?
    ensures var slot := SlotOf(Apply(s, step), step.node); HasWorker(slot) ==> WorkerOK(slot.worker)
  {
    var n := step.node;
    if HasWorker(SlotOf(s, n)) {
      var w := SlotOf(s, n).worker;
      assert WorkerOK(w);
      if w.inputs.Some? {
        InputManager.CancelKeepsInv(w.inputs.value);
        if step.Manage? {
          ManagedWorker(w, step.step);
        }
      }
    }
  }

  lemma ManagedWorker(w: Worker, step: InputManager.Step)
    requires WorkerOK(w) && w.inputs.Some? && InputManager.Enabled(w.inputs.value, step)
    ensures WorkerOK(w.(inputs := Some(InputManager.Apply(w.inputs.value, step))))
  {
    InputManager.StepKeepsInv(w.inputs.value, step);
    if w.inputs.value.pc.Done? {
      InputManager.DoneIsFinal(w.inputs.value, step);
    }
  }

  lemma OtherSlots(s: State, step: Step, n: string)
    requires Enabled(s, step) && (step.Tick? || step.node != n)
    ensures SlotOf(Apply(s, step), n) == SlotOf(s, n)
  {
  }

  /** Whoever is active after a timely step holds the unexpired lease. */
  lemma StepKeepsHolder(s: State, step: Step, n: string)
    requires Inv(s) && Enabled(s, step) && Timely(s, step) && Active(SlotOf(Apply(s, step), n))
    ensures var t := Apply(s, step); t.row.Some? && t.row.value.node == n && t.now <= t.row.value.expires
  {
    if step.Tick? || step.node != n {
      OtherSlots(s, step, n);
    }
  }

  lemma StepKeepsInv(s: State, step: Step)
    requires Inv(s) && Enabled(s, step) && Timely(s, step)
    ensures Inv(Apply(s, step))
  {
    var t := Apply(s, step);
    forall n | HasWorker(SlotOf(t, n))
      ensures WorkerOK(SlotOf(t, n).worker)
    {
      if step.Tick? || step.node != n {
        OtherSlots(s, step, n);
      } else {
        StepKeepsWorker(s, step);
      }
    }
    forall n | Active(SlotOf(t, n))
      ensures t.row.Some? && t.row.value.node == n && t.now <= t.row.value.expires
    {
      StepKeepsHolder(s, step, n);
    }
  }

  lemma {:induction false} RunKeepsInv(s: State, steps: seq<Step>)
    requires Inv(s) && Executable(s, steps) && TimelyRun(s, steps)
    ensures Inv(Run(s, steps))
    decreases |steps|
  {
    if steps != [] {
      StepKeepsInv(s, steps[0]);
      RunKeepsInv(Apply(s, steps[0]), steps[1..]);
    }
  }

  // ---- main results -----------------------------------------------------------------

  /** In every timely run without stop timeouts, at most one node has a worker for the group
      that is not in a terminal state, and that node holds the unexpired lease. */
  lemma AtMostOneActiveNode(steps: seq<Step>, a: string, b: string)
    requires Executable(FRESH, steps) && TimelyRun(FRESH, steps)
    ensures var s := Run(FRESH, steps);
      && (Active(SlotOf(s, a)) && Active(SlotOf(s, b)) ==> a == b)
      && (Active(SlotOf(s, a)) ==> Lease.Holds(Lease.State(s.now, s.row, []), a))
  {
    RunKeepsInv(FRESH, steps);
  }

  predicate Releases(step: Step, node: string) {
    step == LoadInputsFails(node) || step == StopDone(node) || step == Prune(node)
  }

  lemma TerminalIsQuiet(w: Worker)
    requires WorkerOK(w) && Terminal(w.state)
    ensures Quiet(w)
  {
    if w.inputs.Some? {
      InputManager.DoneIsQuiet(w.inputs.value);
    }
  }

  /** Under every interleaving of reconciling, exiting and stopping: a node gives a lease back
      only when every input worker it ever started for the group has exited and its group
      worker, if any, is in a terminal state. */
  lemma ReleaseOnlyAfterDrain(steps: seq<Step>, step: Step, node: string)
    requires Executable(FRESH, steps) && TimelyRun(FRESH, steps)
    requires Releases(step, node) && Enabled(Run(FRESH, steps), step)
    ensures var slot := SlotOf(Run(FRESH, steps), node);
      HasWorker(slot) ==> Quiet(slot.worker) && Terminal(slot.worker.state)
  {
    RunKeepsInv(FRESH, steps);
    var slot := SlotOf(Run(FRESH, steps), node);
    if HasWorker(slot) {
      TerminalIsQuiet(slot.worker);
    }
  }

  /** The `r`-th input worker started by the group worker in this slot consumes the input. */
  predicate RunsAt(slot: Slot, r: nat, input: string) {
    HasWorker(slot) && slot.worker.inputs.Some? && InputManager.Live(slot.worker.inputs.value, r, input)
  }

  /** Apart from the manager's own steps and the death of the node, no step starts or ends an
      input worker. */
  lemma RunsAtAfter(s: State, step: Step, r: nat, input: string)
    requires Inv(s) && Enabled(s, step) && !step.Tick? && !step.Manage?
    ensures RunsAt(SlotOf(Apply(s, step), step.node), r, input) <==>
      RunsAt(SlotOf(s, step.node), r, input) && !step.NodeDies?
  {
    var slot := SlotOf(s, step.node);
    if HasWorker(slot) {
      var w := slot.worker;
      assert WorkerOK(w);
      if Terminal(w.state) {
        TerminalIsQuiet(w);
      }
      if w.inputs.Some? {
        InputManager.LiveAfterCancel(w.inputs.value, r, input);
      }
    }
  }

  lemma OneConsumer(s: State, input: string, a: string, r: nat, b: string, q: nat)
    requires Inv(s) && RunsAt(SlotOf(s, a), r, input) && RunsAt(SlotOf(s, b), q, input)
    ensures a == b && r == q
  {
    assert WorkerOK(SlotOf(s, a).worker);
    InputManager.OneRunPerInput(SlotOf(s, a).worker.inputs.value, r, q);
  }

  /** In every timely run each input is consumed by at most one input worker in the whole
      deployment. */
  lemma OneConsumerPerInput(steps: seq<Step>, input: string, a: string, r: nat, b: string, q: nat)
    requires Executable(FRESH, steps) && TimelyRun(FRESH, steps)
    requires var s := Run(FRESH, steps); RunsAt(SlotOf(s, a), r, input) && RunsAt(SlotOf(s, b), q, input)
    ensures a == b && r == q
  {
    RunKeepsInv(FRESH, steps);
    OneConsumer(Run(FRESH, steps), input, a, r, b, q);
  }

  /** Until its node drops it, a terminal worker keeps its state and runs no inputs. */
  lemma TerminalIsFinal(s: State, step: Step, node: string)
    requires Inv(s) && Enabled(s, step)
    requires HasWorker(SlotOf(s, node)) && Terminal(SlotOf(s, node).worker.state)
    ensures var slot := SlotOf(Apply(s, step), node);
      HasWorker(slot) ==> slot.worker.state == SlotOf(s, node).worker.state && Quiet(slot.worker)
  {
    var w := SlotOf(s, node).worker;
    assert WorkerOK(w);
    TerminalIsQuiet(w);
    if step.Tick? || step.node != node {
      OtherSlots(s, step, node);
    } else if step.Manage? {
      InputManager.DoneIsFinal(w.inputs.value, step.step);
    }
  }

  ghost predicate NeverIdle(s: State, steps: seq<Step>, node: string)
    requires Executable(s, steps)
    decreases |steps|
  {
    HasWorker(SlotOf(s, node)) && (steps == [] || NeverIdle(Apply(s, steps[0]), steps[1..], node))
  }

  lemma {:induction false} TerminalIsNeverLeft(s: State, steps: seq<Step>, node: string)
    requires Inv(s) && Executable(s, steps) && TimelyRun(s, steps) && NeverIdle(s, steps, node)
    requires Terminal(SlotOf(s, node).worker.state)
    ensures HasWorker(SlotOf(Run(s, steps), node))
    ensures SlotOf(Run(s, steps), node).worker.state == SlotOf(s, node).worker.state
    decreases |steps|
  {
    if steps != [] {
      TerminalIsFinal(s, steps[0], node);
      StepKeepsInv(s, steps[0]);
      TerminalIsNeverLeft(Apply(s, steps[0]), steps[1..], node);
    }
  }

  // ---- heartbeats -------------------------------------------------------------------

  /** The row is the node's and has not expired. */
  predicate Owns(s: State, node: string) {
    s.row.Some? && s.row.value.node == node && s.now <= s.row.value.expires
  }

  /** The lease loop is over and can only end in the error state. */
  predicate Failing(slot: Slot) {
    HasWorker(slot) && (slot.worker.pc == Draining(Errored) || (slot.worker.pc.Finished? && slot.worker.state.Errored?))
  }

  /** A heartbeat that reaches the database: with the lease in hand the worker goes on and the
      lease ends a full ttl from now; with the lease lost the row is left alone, the worker
      fails and its input manager is told to stop. */
  lemma HeartbeatOutcome(s: State, node: string, ttl: int, applied: bool)
    requires Enabled(s, Renew(node, ttl, false, applied)) && ttl > 0
    ensures var t := Apply(s, Renew(node, ttl, false, applied));
      if Owns(s, node) then
        t.slots == s.slots && t.now == s.now && Owns(t, node) && t.row.value.expires == s.now + ttl
      else
        && t.row == s.row && Failing(SlotOf(t, node))
        && (SlotOf(t, node).worker.inputs.Some? ==> SlotOf(t, node).worker.inputs.value.cancelled)
  {
  }

  /** In every timely run every heartbeat that reaches the database extends the lease. */
  lemma TimelyHeartbeatExtends(steps: seq<Step>, node: string, ttl: int, applied: bool)
    requires Executable(FRESH, steps) && TimelyRun(FRESH, steps)
    requires Enabled(Run(FRESH, steps), Renew(node, ttl, false, applied)) && ttl > 0
    ensures var s := Run(FRESH, steps);
      var t := Apply(s, Renew(node, ttl, false, applied));
      t.slots == s.slots && Owns(t, node) && t.row.value.expires == s.now + ttl
  {
    RunKeepsInv(FRESH, steps);
    HeartbeatOutcome(Run(FRESH, steps), node, ttl, applied);
  }

  lemma FailingStays(s: State, step: Step, node: string)
    requires Enabled(s, step) && Failing(SlotOf(s, node)) && HasWorker(SlotOf(Apply(s, step), node))
    ensures Failing(SlotOf(Apply(s, step), node))
  {
    if step.Tick? || step.node != node {
      OtherSlots(s, step, node);
    }
  }

  /** Whatever happens later, timely or not: a worker that has lost its lease never enters the
      lease loop again, and if it ends it ends in the error state. */
  lemma {:induction false} LostLeaseFails(s: State, steps: seq<Step>, node: string)
    requires Executable(s, steps) && NeverIdle(s, steps, node) && Failing(SlotOf(s, node))
    ensures Failing(SlotOf(Run(s, steps), node))
    decreases |steps|
  {
    if steps != [] {
      FailingStays(s, steps[0], node);
      LostLeaseFails(Apply(s, steps[0]), steps[1..], node);
    }
  }

  lemma RunOfOne(s: State, step: Step, rest: seq<Step>)
    requires Enabled(s, step) && Executable(Apply(s, step), rest)
    ensures Executable(s, [step] + rest) && Run(s, [step] + rest) == Run(Apply(s, step), rest)
  {
    assert ([step] + rest)[1..] == rest;
  }

  /** The steps by which `b` takes over while `a` still runs. */
  function TakeOver(a: string, b: string, ttl: nat): seq<Step> {
    [Acquire(a, ttl)] + ([StartWorker(a)] + ([Tick(ttl + 1)] + ([Acquire(b, ttl)] + ([StartWorker(b)] + []))))
  }

  /** The premise on time is needed: from the start, one node acquires the lease and starts a
      worker, the clock passes the expiry, a second node does the same, and both workers are
      active. */
  lemma PassedExpiryBreaksExclusion(a: string, b: string, ttl: nat)
    requires a != b && ttl > 0
    ensures Executable(FRESH, TakeOver(a, b, ttl)) && !TimelyRun(FRESH, TakeOver(a, b, ttl))
    ensures var s := Run(FRESH, TakeOver(a, b, ttl)); Active(SlotOf(s, a)) && Active(SlotOf(s, b))
  {
    var s1 := Apply(FRESH, Acquire(a, ttl));
    var s2 := Apply(s1, StartWorker(a));
    var s3 := Apply(s2, Tick(ttl + 1));
    assert s3.row == Some(Lease.Row(a, ttl, 1, 0)) && s3.now == ttl + 1;
    var s4 := Apply(s3, Acquire(b, ttl));
    assert SlotOf(s4, b) == Leased;
    var s5 := Apply(s4, StartWorker(b));
    assert SlotOf(s5, a) == SlotOf(s2, a);
    RunOfOne(s4, StartWorker(b), []);
    RunOfOne(s3, Acquire(b, ttl), [StartWorker(b)] + []);
    RunOfOne(s2, Tick(ttl + 1), [Acquire(b, ttl)] + ([StartWorker(b)] + []));
    RunOfOne(s1, StartWorker(a), [Tick(ttl + 1)] + ([Acquire(b, ttl)] + ([StartWorker(b)] + [])));
    RunOfOne(FRESH, Acquire(a, ttl),
             [StartWorker(a)] + ([Tick(ttl + 1)] + ([Acquire(b, ttl)] + ([StartWorker(b)] + []))));
    if TimelyRun(FRESH, TakeOver(a, b, ttl)) {
      AtMostOneActiveNode(TakeOver(a, b, ttl), a, b);
    }
  }
}
