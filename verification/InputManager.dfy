/** The input manager of one group worker (`input_worker.go`): a loop that starts and stops
    input workers, raced by the owner's stop request and by workers that exit on their own. */
module InputManager {

  /** One started input worker: its goroutine runs until `exited`, that is until it has closed
      its `done` channel. */
  datatype InputRun = InputRun(input: string, cancelled: bool, exited: bool)

  /** Where the manager's only goroutine is. `Waiting` is inside `stopInput`, on `<-mi.done`. */
  datatype Pc =
    | Entered
    | Selecting
    | StoppingInputs(ids: seq<string>, desired: set<string>)
    | StartingInputs(desired: set<string>, todo: set<string>)
    | Draining(ids: seq<string>)
    | Waiting(run: nat, after: Pc)
    | Done

  /** `runs` are all input workers ever started here, `active` the manager's map of the ones it
      knows, `cancelled` says that the owner has called `stop`. */
  datatype Manager = Manager(pc: Pc, runs: seq<InputRun>, active: map<string, nat>, cancelled: bool)

  datatype Step =
    | ListingFails
    | BeginReconcile(desired: set<string>, toStop: seq<string>)
    | StopNext
    | WaitOver
    | AllStopped
    | Visit(id: string, start: bool)
    | EndReconcile
    | SeeCancel(ids: seq<string>)
    | CloseDone
    | RunExits(run: nat)

  const NEW_MANAGER := Manager(Entered, [], map[], false)

  function ToSet(ids: seq<string>): set<string> {
    set id | id in ids
  }

  predicate Enabled(m: Manager, step: Step) {
    match step
    case ListingFails => m.pc.Entered? || m.pc.Selecting?
    case BeginReconcile(desired, toStop) =>
      (m.pc.Entered? || m.pc.Selecting?) && ToSet(toStop) == m.active.Keys - desired
    case StopNext => (m.pc.StoppingInputs? || m.pc.Draining?) && m.pc.ids != []
    case WaitOver => m.pc.Waiting? && m.pc.run < |m.runs| && m.runs[m.pc.run].exited
    case AllStopped => m.pc.StoppingInputs? && m.pc.ids == []
    case Visit(id, _) =>
      m.pc.StartingInputs? && id in m.pc.todo && (id in m.active ==> m.active[id] < |m.runs|)
    case EndReconcile => m.pc.StartingInputs? && m.pc.todo == {}
    case SeeCancel(ids) => m.pc.Selecting? && m.cancelled && ToSet(ids) == m.active.Keys
    case CloseDone => m.pc.Draining? && m.pc.ids == []
    case RunExits(r) => r < |m.runs| && !m.runs[r].exited
  }

  /** The list left to stop after the first one. */
  function Rest(pc: Pc): Pc
    requires (pc.StoppingInputs? || pc.Draining?) && pc.ids != []
  {
    pc.(ids := pc.ids[1..])
  }

  /** `stopInput`: forget the input, cancel its worker, wait for it. */
  function StopInput(m: Manager, id: string, after: Pc): Manager {
    if id !in m.active || m.active[id] >= |m.runs| then m.(pc := after)
    else
      var r := m.active[id];
      m.(pc := Waiting(r, after), active := m.active - {id}, runs := m.runs[r := m.runs[r].(cancelled := true)])
  }

  predicate Running(m: Manager, id: string)
    requires id in m.active ==> m.active[id] < |m.runs|
  {
    id in m.active && !m.runs[m.active[id]].exited
  }

  /** One desired input in `reconcile`: an exited worker is forgotten; what does not run is
      started, unless it is held back or its consumer cannot be created. A worker's context
      derives from the manager's. */
  function VisitInput(m: Manager, id: string, start: bool): Manager
    requires id in m.active ==> m.active[id] < |m.runs|
  {
    if Running(m, id) then m
    else if start then
      m.(runs := m.runs + [InputRun(id, m.cancelled, false)], active := m.active[id := |m.runs|])
    else m.(active := m.active - {id})
  }

  function Apply(m: Manager, step: Step): Manager
    requires Enabled(m, step)
  {
    match step
    case ListingFails => m.(pc := Selecting)
    case BeginReconcile(desired, toStop) => m.(pc := StoppingInputs(toStop, desired))
    case StopNext => StopInput(m, m.pc.ids[0], Rest(m.pc))
    case WaitOver => m.(pc := m.pc.after)
    case AllStopped => m.(pc := StartingInputs(m.pc.desired, m.pc.desired))
    case Visit(id, start) => VisitInput(m, id, start).(pc := m.pc.(todo := m.pc.todo - {id}))
    case EndReconcile => m.(pc := Selecting)
    case SeeCancel(ids) => m.(pc := Draining(ids))
    case CloseDone => m.(pc := Done)
    case RunExits(r) => m.(runs := m.runs[r := m.runs[r].(exited := true)])
  }

  /** The owner's `stop`: cancels the manager's context, and with it every worker's. */
  function Cancel(m: Manager): Manager {
    m.(cancelled := true, runs := seq(|m.runs|, i requires 0 <= i < |m.runs| => m.runs[i].(cancelled := true)))
  }

  // ---- the invariant ----------------------------------------------------------------

  predicate Waited(m: Manager, r: nat) {
    m.pc.Waiting? && m.pc.run == r
  }

  predicate Known(m: Manager, r: nat)
    requires r < |m.runs|
  {
    m.runs[r].input in m.active && m.active[m.runs[r].input] == r
  }

  /** Everything still to be stopped is on the list: all of it when draining, and what is not
      desired in a reconcile. */
  predicate Listed(m: Manager, pc: Pc) {
    && (pc.Draining? ==> forall id :: id in m.active ==> id in pc.ids)
    && (pc.StoppingInputs? ==> forall id :: id in m.active ==> id in pc.ids || id in pc.desired)
    && (pc.StartingInputs? ==> pc.todo <= pc.desired && forall id :: id in m.active ==> id in pc.desired)
    && (pc.Done? ==> m.active == map[])
  }

  ghost predicate Inv(m: Manager) {
    && (forall id :: id in m.active ==> m.active[id] < |m.runs| && m.runs[m.active[id]].input == id)
    && (forall r :: 0 <= r < |m.runs| && !m.runs[r].exited ==> Known(m, r) || Waited(m, r))
    && (m.pc.Waiting? ==>
          && m.pc.run < |m.runs| && m.runs[m.pc.run].cancelled && m.runs[m.pc.run].input !in m.active
          && (m.pc.after.StoppingInputs? || m.pc.after.Draining?) && Listed(m, m.pc.after))
    && Listed(m, m.pc)
    && (m.cancelled ==> forall r :: 0 <= r < |m.runs| ==> m.runs[r].cancelled)
  }

  lemma StopKeepsInv(m: Manager)
    requires Inv(m) && Enabled(m, StopNext)
    ensures Inv(Apply(m, StopNext))
  {
    var id, after := m.pc.ids[0], Rest(m.pc);
    assert m.pc.ids == [id] + after.ids;
    var m' := StopInput(m, id, after);
    forall r | 0 <= r < |m'.runs| && !m'.runs[r].exited
      ensures Known(m', r) || Waited(m', r)
    {
      assert Known(m, r);
    }
  }

  lemma VisitKeepsInv(m: Manager, id: string, start: bool)
    requires Inv(m) && Enabled(m, Visit(id, start))
    ensures Inv(Apply(m, Visit(id, start)))
  {
    var m' := Apply(m, Visit(id, start));
    forall r | 0 <= r < |m'.runs| && !m'.runs[r].exited
      ensures Known(m', r)
    {
      if r < |m.runs| {
        assert Known(m, r);
      }
    }
  }

  lemma BeginKeepsInv(m: Manager, desired: set<string>, toStop: seq<string>)
    requires Inv(m) && Enabled(m, BeginReconcile(desired, toStop))
    ensures Inv(Apply(m, BeginReconcile(desired, toStop)))
  {
    var m' := Apply(m, BeginReconcile(desired, toStop));
    assert forall id :: id in m.active && id !in desired ==> id in ToSet(toStop);
    forall r | 0 <= r < |m'.runs| && !m'.runs[r].exited
      ensures Known(m', r)
    {
      assert Known(m, r);
    }
  }

  /** Every step of the manager, and every exit of a worker, keeps the invariant. */
  lemma StepKeepsInv(m: Manager, step: Step)
    requires Inv(m) && Enabled(m, step)
    ensures Inv(Apply(m, step))
  {
    match step
    case StopNext => StopKeepsInv(m);
    case Visit(id, start) => VisitKeepsInv(m, id, start);
    case BeginReconcile(desired, toStop) => BeginKeepsInv(m, desired, toStop);
    case RunExits(x) =>
      var m' := Apply(m, step);
      forall r | 0 <= r < |m'.runs| && !m'.runs[r].exited
        ensures Known(m', r) || Waited(m', r)
      {
        assert Known(m, r) || Waited(m, r);
      }
    case _ =>
      var m' := Apply(m, step);
      forall r | 0 <= r < |m'.runs| && !m'.runs[r].exited
        ensures Known(m', r) || Waited(m', r)
      {
        assert Known(m, r) || Waited(m, r);
      }
  }

  lemma CancelKeepsInv(m: Manager)
    requires Inv(m)
    ensures Inv(Cancel(m))
  {
    var m' := Cancel(m);
    forall r | 0 <= r < |m'.runs| && !m'.runs[r].exited
      ensures Known(m', r) || Waited(m', r)
    {
      assert Known(m, r) || Waited(m, r);
    }
  }

  // ---- what the owner relies on -----------------------------------------------------

  predicate Quiet(m: Manager) {
    forall r :: 0 <= r < |m.runs| ==> m.runs[r].exited
  }

  /** When the manager's `done` is closed, no input worker it ever started is running. */
  lemma DoneIsQuiet(m: Manager)
    requires Inv(m) && m.pc.Done?
    ensures Quiet(m)
  {
    forall r | 0 <= r < |m.runs|
      ensures m.runs[r].exited
    {
      assert m.runs[r].exited || Known(m, r) || Waited(m, r);
    }
  }

  /** And nothing is started afterwards. */
  lemma DoneIsFinal(m: Manager, step: Step)
    requires Inv(m) && m.pc.Done?
    ensures !Enabled(m, step)
  {
    DoneIsQuiet(m);
  }

  /** At most one worker per input runs at any time. */
  lemma OneRunPerInput(m: Manager, r: nat, q: nat)
    requires Inv(m) && r < |m.runs| && q < |m.runs|
    requires !m.runs[r].exited && !m.runs[q].exited && m.runs[r].input == m.runs[q].input
    ensures r == q
  {
    assert Known(m, r) || Waited(m, r);
    assert Known(m, q) || Waited(m, q);
  }

  /** When a reconcile has stopped what it listed, and until it ends, every running worker is
      for an input that it found desired. */
  lemma OnlyDesiredRun(m: Manager, r: nat)
    requires Inv(m) && r < |m.runs| && !m.runs[r].exited
    requires m.pc.StartingInputs? || (m.pc.StoppingInputs? && m.pc.ids == [])
    ensures m.runs[r].input in m.pc.desired
  {
    assert Known(m, r);
  }

  /** A desired input that is visited and not held back has a running worker afterwards: the
      one it had, or else a new one. */
  lemma VisitLeavesRunning(m: Manager, id: string)
    requires Inv(m) && Enabled(m, Visit(id, true))
    ensures exists r: nat :: Live(Apply(m, Visit(id, true)), r, id)
    ensures Apply(m, Visit(id, true)).runs == m.runs <==> exists r: nat :: Live(m, r, id)
  {
    var m' := Apply(m, Visit(id, true));
    if Running(m, id) {
      assert Live(m, m.active[id], id);
      assert Live(m', m.active[id], id);
    } else {
      assert Live(m', |m.runs|, id);
      forall r: nat | r < |m.runs| && m.runs[r].input == id
        ensures m.runs[r].exited
      {
        assert !m.runs[r].exited ==> Known(m, r);
      }
    }
  }

  // ---- which workers run ------------------------------------------------------------

  /** The `r`-th worker started consumes the input. */
  predicate Live(m: Manager, r: nat, input: string) {
    r < |m.runs| && m.runs[r].input == input && !m.runs[r].exited
  }

  predicate StartsRun(m: Manager, step: Step, input: string)
    requires Enabled(m, step)
  {
    step.Visit? && step.id == input && |Apply(m, step).runs| > |m.runs|
  }

  /** A worker runs after a step if it ran before and did not exit, or was started by it. */
  lemma LiveAfter(m: Manager, step: Step, r: nat, input: string)
    requires Enabled(m, step)
    ensures Live(Apply(m, step), r, input) <==>
      (Live(m, r, input) && step != RunExits(r)) || (r == |m.runs| && StartsRun(m, step, input))
  {
  }

  lemma LiveAfterCancel(m: Manager, r: nat, input: string)
    ensures Live(Cancel(m), r, input) <==> Live(m, r, input)
  {
  }
}
