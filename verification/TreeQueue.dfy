/**
 * The per-tree message scheduler: one node is processed at a time, and the
 * finishing task hands over to the next (messaging/trees/processor.py,
 * messaging/trees/data.py, messaging/trees/queue_manager.py). Each await-free
 * stretch of the source is one step. Ids are opaque tokens.
 */
module TreeQueue {
  import opened Text

  type NodeId = nat

  datatype MessageState = PENDING | IN_PROGRESS | COMPLETED | ERROR

  predicate Terminal(state: MessageState) {
    state == COMPLETED || state == ERROR
  }

  /** A task has been created but has not run yet, or its processor call is running. */
  datatype Phase = CREATED | RUNNING

  datatype Task = Task(node: NodeId, phase: Phase)

  /**
   * The scheduler's state. `tasks` are the tasks that still owe a hand-over.
   * `states` covers every node object ever made, `live` the ids in the tree.
   * The last three fields are history: the ids in the order they were
   * enqueued, those given to a task, and those a cancellation took out of the queue.
   */
  datatype Sched = Sched(
    queue: seq<NodeId>,
    index: set<NodeId>,
    busy: bool,
    current: Option<NodeId>,
    currentTask: Option<nat>,
    tasks: map<nat, Task>,
    nextTask: nat,
    live: set<NodeId>,
    states: map<NodeId, MessageState>,
    enqueued: seq<NodeId>,
    started: seq<NodeId>,
    dropped: set<NodeId>)

  const INIT := Sched([], {}, false, None, None, map[], 0, {}, map[], [], [], {})

  datatype Action =
    | AddNode(n: NodeId)
    | SetState(n: NodeId, state: MessageState)
    | Enqueue(n: NodeId)
    | Begin(t: nat)
    | Finish(t: nat, raised: bool)
    | CancelNode(n: NodeId)
    | CancelBranch(branch: set<NodeId>)
    | RemoveBranch(branch: set<NodeId>)
    | CancelTree

  // ----- The queue -----

  /** The ids that are not to be dropped, in order. */
  function KeepOut(q: seq<NodeId>, drop: set<NodeId>): (r: seq<NodeId>) {
    if q == [] then []
    else if q[0] in drop then KeepOut(q[1..], drop)
    else [q[0]] + KeepOut(q[1..], drop)
  }

  function Elements(q: seq<NodeId>): set<NodeId> {
    set x | x in q
  }

  /** A FIFO queue with a set for fast membership tests. */
  class SnapshotQueue {
    var deque: seq<NodeId>
    var index: set<NodeId>

    constructor ()
      ensures deque == [] && index == {}
    {
      deque, index := [], {};
    }

    method Put(item: NodeId)
      modifies this
      ensures deque == old(deque) + [item] && index == old(index) + {item}
    {
      deque := deque + [item];
      index := index + {item};
    }

    method Get() returns (item: Option<NodeId>)
      modifies this
      ensures old(deque) == [] ==> item == None && deque == [] && index == old(index)
      ensures old(deque) != [] ==>
                item == Some(old(deque)[0]) && deque == old(deque)[1..] && index == old(index) - {old(deque)[0]}
    {
      if deque == [] {
        return None;
      }
      item := Some(deque[0]);
      index := index - {deque[0]};
      deque := deque[1..];
    }

    method RemoveIfPresent(item: NodeId) returns (removed: bool)
      modifies this
      ensures removed <==> item in old(index)
      ensures removed ==> deque == KeepOut(old(deque), {item}) && index == old(index) - {item}
      ensures !removed ==> deque == old(deque) && index == old(index)
    {
      if item !in index {
        return false;
      }
      index := index - {item};
      deque := KeepOut(deque, {item});
      removed := true;
    }
  }

  // ----- The steps -----

  function StartTask(s: Sched, n: NodeId): Sched {
    if n in s.live then
      s.(tasks := s.tasks[s.nextTask := Task(n, CREATED)], currentTask := Some(s.nextTask),
         nextTask := s.nextTask + 1, started := s.started + [n])
    else s
  }

  /** `_process_next`: hand over to the head of the queue, or mark the tree free. */
  function ProcessNext(s: Sched): Sched {
    if s.queue == [] then s.(busy := false, current := None)
    else
      var n := s.queue[0];
      StartTask(s.(queue := s.queue[1..], index := s.index - {n}, busy := true, current := Some(n)), n)
  }

  function EnqueueStep(s: Sched, n: NodeId): Sched {
    var s1 := s.(enqueued := s.enqueued + [n]);
    if s.busy then s1.(queue := s.queue + [n], index := s.index + {n})
    else StartTask(s1.(busy := true, current := Some(n)), n)
  }

  /** A task's first run: skip a failed node, or enter the processor. */
  function BeginStep(s: Sched, t: nat): Sched
    requires t in s.tasks && s.tasks[t].node in s.states
  {
    if s.states[s.tasks[t].node] == ERROR then ProcessNext(s.(tasks := s.tasks - {t}))
    else s.(tasks := s.tasks[t := s.tasks[t].(phase := RUNNING)])
  }

  /** The processor returns, raises or is cancelled; the finally block clears the current node and hands over. */
  function FinishStep(s: Sched, t: nat, raised: bool): Sched
    requires t in s.tasks
  {
    var n := s.tasks[t].node;
    var states := if raised && n in s.live then s.states[n := ERROR] else s.states;
    ProcessNext(s.(tasks := s.tasks - {t}, states := states, current := None))
  }

  /**
   * Cancels the current task if it is not done. A task that has not run yet
   * never enters its body, so it vanishes without a hand-over; a running one
   * gets its exception later, in a Finish step.
   */
  function CancelCurrent(s: Sched): Sched {
    if s.currentTask.Some? && s.currentTask.value in s.tasks && s.tasks[s.currentTask.value].phase == CREATED
    then s.(tasks := s.tasks - {s.currentTask.value}) else s
  }

  /** The node is in the tree and not yet in a terminal state. */
  predicate Cancellable(s: Sched, n: NodeId) {
    n in s.live && n in s.states && !Terminal(s.states[n])
  }

  function TakeOut(s: Sched, drop: set<NodeId>): Sched {
    s.(queue := KeepOut(s.queue, drop), index := s.index - drop, dropped := s.dropped + (drop * Elements(s.queue)))
  }

  function CancelNodeStep(s: Sched, n: NodeId): Sched {
    if !Cancellable(s, n) then s
    else
      var s1 := if s.current == Some(n) then CancelCurrent(s) else s;
      TakeOut(s1, {n} * s.index).(states := s.states[n := ERROR])
  }

  /** The nodes of the branch that a cancellation takes out of the queue: all but the current one. */
  function BranchDrop(s: Sched, branch: set<NodeId>): set<NodeId> {
    set n | n in branch && Cancellable(s, n) && s.current != Some(n) && n in s.index
  }

  function CancelBranchStep(s: Sched, branch: set<NodeId>): Sched {
    var s1 := if exists n :: n in branch && Cancellable(s, n) && s.current == Some(n) then CancelCurrent(s) else s;
    TakeOut(s1, BranchDrop(s, branch)).(
      states := map n | n in s.states :: if n in branch && Cancellable(s, n) then ERROR else s.states[n])
  }

  /** Every node that is still pending or in progress fails; so does every queued one. */
  function CancelTreeStep(s: Sched): Sched {
    var s1 := CancelCurrent(s);
    s1.(queue := [], index := s.index - Elements(s.queue), dropped := s.dropped + Elements(s.queue),
        states := map n | n in s.states ::
                    if n in s.live && (!Terminal(s.states[n]) || n in s.queue) then ERROR else s.states[n],
        busy := false, current := None)
  }

  /** Actions that can happen at all: ids of new nodes are fresh, and tasks run when they exist. */
  predicate Enabled(s: Sched, a: Action) {
    match a
    case AddNode(n) => n !in s.states
    case SetState(n, _) => n in s.states
    case Enqueue(n) => n in s.states
    case Begin(t) => t in s.tasks && s.tasks[t].phase == CREATED && s.tasks[t].node in s.states
    case Finish(t, _) => t in s.tasks && s.tasks[t].phase == RUNNING
    case _ => true
  }

  function Step(s: Sched, a: Action): Sched
    requires Enabled(s, a)
  {
    match a
    case AddNode(n) => s.(live := s.live + {n}, states := s.states[n := PENDING])
    case SetState(n, state) => if n in s.live then s.(states := s.states[n := state]) else s
    case Enqueue(n) => EnqueueStep(s, n)
    case Begin(t) => BeginStep(s, t)
    case Finish(t, raised) => FinishStep(s, t, raised)
    case CancelNode(n) => CancelNodeStep(s, n)
    case CancelBranch(branch) => CancelBranchStep(s, branch)
    case RemoveBranch(branch) => s.(live := s.live - branch)
    case CancelTree => CancelTreeStep(s)
  }

  // ----- The invariant -----

  /** A running task whose tree was cancelled under it: it has still to hand over, to an empty queue. */
  predicate Unwinding(s: Sched) {
    !s.busy && s.tasks != map[]
  }

  /** The current task is the only one. */
  ghost predicate SoleTask(s: Sched) {
    s.currentTask.Some? && s.tasks.Keys == {s.currentTask.value}
  }

  /**
   * Busy with exactly one task that owes a hand-over, namely the current one;
   * or free with nothing to do, except perhaps for a cancelled task to unwind.
   */
  ghost predicate OneOwner(s: Sched) {
    if s.busy then
      SoleTask(s) && s.current == Some(s.tasks[s.currentTask.value].node)
    else
      && s.current == None && s.queue == []
      && (s.tasks != map[] ==> SoleTask(s) && s.tasks[s.currentTask.value].phase == RUNNING)
  }

  /** Every enqueued id was given to a task, waits in the queue, or was cancelled there; in order. */
  ghost predicate Conserved(s: Sched) {
    && Distinct(s.enqueued)
    && s.started + s.queue == KeepOut(s.enqueued, s.dropped)
    && s.dropped <= Elements(s.enqueued)
  }

  ghost predicate Inv(s: Sched) {
    && OneOwner(s)
    && Conserved(s)
    && s.index == Elements(s.queue)
    && Elements(s.queue) <= s.live
    && s.live <= s.states.Keys
    && (forall t :: t in s.tasks ==> t < s.nextTask && s.tasks[t].node in s.states && s.tasks[t].node in s.started)
    && (forall n :: n in s.enqueued ==> n in s.states)
  }

  /** The task that a cancellation of these nodes would stop has not run yet. */
  predicate HitsUnstarted(s: Sched, nodes: set<NodeId>) {
    && s.current.Some? && s.current.value in nodes && Cancellable(s, s.current.value)
    && s.currentTask.Some? && s.currentTask.value in s.tasks && s.tasks[s.currentTask.value].phase == CREATED
  }

  /** The condition under which an action is safe, readable off the state before it. */
  predicate Safe(s: Sched, a: Action) {
    match a
    case Enqueue(n) => n in s.live && n !in s.enqueued && !Unwinding(s)
    case CancelNode(n) => !HitsUnstarted(s, {n})
    case CancelBranch(branch) => !HitsUnstarted(s, branch)
    case RemoveBranch(branch) => forall n :: n in s.queue ==> n !in branch
    case _ => true
  }
}
