/**
 * The scheduler's operations as the source performs them, on fields updated in
 * place; each is one step of the state machine.
 */
module TreeScheduler {
  import opened Text
  import opened TreeQueue
  import opened TreeQueueProofs

  /** Without the current task, if that has not run yet. */
  function StartedOnly(current: Option<nat>, tasks: map<nat, Task>): map<nat, Task> {
    if current.Some? && current.value in tasks && tasks[current.value].phase == CREATED then tasks - {current.value} else tasks
  }

  /** The cancelled nodes that are queued and not current. */
  function Waiting(cancelled: seq<NodeId>, current: Option<NodeId>, index: set<NodeId>): set<NodeId> {
    set n | n in cancelled && current != Some(n) && n in index
  }

  class MessageTreeQueue {
    const queue: SnapshotQueue
    var isProcessing: bool
    var currentNodeId: Option<NodeId>
    var currentTask: Option<nat>
    var tasks: map<nat, Task>
    var nextTask: nat
    var nodes: set<NodeId>
    var states: map<NodeId, MessageState>
    ghost var enqueued: seq<NodeId>
    ghost var started: seq<NodeId>
    ghost var dropped: set<NodeId>

    ghost function View(): Sched
      reads this, queue
    {
      Sched(queue.deque, queue.index, isProcessing, currentNodeId, currentTask, tasks, nextTask, nodes, states,
            enqueued, started, dropped)
    }

    constructor ()
      ensures fresh(queue) && View() == INIT
    {
      queue := new SnapshotQueue();
      isProcessing, currentNodeId, currentTask := false, None, None;
      tasks, nextTask := map[], 0;
      nodes, states := {}, map[];
      enqueued, started, dropped := [], [], {};
    }

    method SetProcessingState(nodeId: Option<NodeId>, processing: bool)
      modifies this`isProcessing, this`currentNodeId
      ensures isProcessing == processing && currentNodeId == if processing then nodeId else None
    {
      isProcessing := processing;
      currentNodeId := if processing then nodeId else None;
    }

    /** Creates the node's task, if the node is still in the tree. */
    method CreateTask(n: NodeId)
      modifies this`tasks, this`currentTask, this`nextTask, this`started
      ensures View() == StartTask(old(View()), n)
    {
      if n in nodes {
        tasks := tasks[nextTask := Task(n, CREATED)];
        currentTask := Some(nextTask);
        nextTask := nextTask + 1;
        started := started + [n];
      }
    }

    /** `enqueue_and_start`: true if queued, false if processing immediately. */
    method EnqueueAndStart(n: NodeId) returns (queued: bool)
      modifies this, queue
      ensures View() == EnqueueStep(old(View()), n)
      ensures (queued <==> old(isProcessing)) && isProcessing && states == old(states)
      ensures queued ==> queue.deque == old(queue.deque) + [n] && tasks == old(tasks) && currentNodeId == old(currentNodeId)
      ensures !queued ==>
                && queue.deque == old(queue.deque) && currentNodeId == Some(n)
                && tasks == if n in nodes then old(tasks)[old(nextTask) := Task(n, CREATED)] else old(tasks)
    {
      enqueued := enqueued + [n];
      if isProcessing {
        queue.Put(n);
        return true;
      }
      SetProcessingState(Some(n), true);
      CreateTask(n);
      queued := false;
    }

    /** `_process_next` */
    method HandToNext()
      modifies this, queue
      ensures View() == ProcessNext(old(View()))
      ensures states == old(states) && HasHandedOver(old(queue.deque), old(tasks), old(nextTask))
    {
      var next := queue.Get();
      if next.None? {
        SetProcessingState(None, false);
        return;
      }
      SetProcessingState(next, true);
      CreateTask(next.value);
    }

    /** The oldest queued node is current and has a task, if it is still in the tree; or there was none and the tree is free. */
    ghost predicate HasHandedOver(before: seq<NodeId>, left: map<nat, Task>, task: nat)
      reads this, queue
    {
      if before == [] then queue.deque == [] && !isProcessing && currentNodeId == None && tasks == left
      else
        && queue.deque == before[1..] && isProcessing && currentNodeId == Some(before[0])
        && tasks == if before[0] in nodes then left[task := Task(before[0], CREATED)] else left
    }

    /** A task's first run; the task of a failed node hands over at once. */
    method BeginNode(t: nat)
      requires t in tasks && tasks[t].node in states
      modifies this, queue
      ensures View() == BeginStep(old(View()), t)
      ensures states == old(states)
      ensures old(states[tasks[t].node]) != ERROR ==>
                && tasks == old(tasks)[t := Task(old(tasks[t].node), RUNNING)]
                && queue.deque == old(queue.deque) && isProcessing == old(isProcessing) && currentNodeId == old(currentNodeId)
      ensures old(states[tasks[t].node]) == ERROR ==> HasHandedOver(old(queue.deque), old(tasks) - {t}, old(nextTask))
    {
      if states[tasks[t].node] == ERROR {
        tasks := tasks - {t};
        HandToNext();
      } else {
        tasks := tasks[t := tasks[t].(phase := RUNNING)];
      }
    }

    /** The way out of the processor call, by return, exception or cancellation. */
    method FinishNode(t: nat, raised: bool)
      requires t in tasks
      modifies this, queue
      ensures View() == FinishStep(old(View()), t, raised)
      ensures states == if raised && old(tasks[t].node) in nodes then old(states)[old(tasks[t].node) := ERROR] else old(states)
      ensures HasHandedOver(old(queue.deque), old(tasks) - {t}, old(nextTask))
    {
      if raised && tasks[t].node in nodes {
        states := states[tasks[t].node := ERROR];
      }
      currentNodeId := None;
      tasks := tasks - {t};
      HandToNext();
    }

    /** Cancels the current task; one that has not run yet will never run. */
    method CancelCurrentTask() returns (cancelled: bool)
      modifies this`tasks
      ensures View() == CancelCurrent(old(View()))
      ensures tasks == StartedOnly(currentTask, old(tasks))
      ensures cancelled <==> currentTask.Some? && currentTask.value in old(tasks)
    {
      if currentTask.None? || currentTask.value !in tasks {
        return false;
      }
      if tasks[currentTask.value].phase == CREATED {
        tasks := tasks - {currentTask.value};
      }
      cancelled := true;
    }

    method RemoveFromQueue(n: NodeId)
      modifies this`dropped, queue
      ensures View() == TakeOut(old(View()), {n} * old(queue.index))
      ensures queue.deque == if n in old(queue.index) then KeepOut(old(queue.deque), {n}) else old(queue.deque)
    {
      ghost var q := queue.deque;
      var removed := queue.RemoveIfPresent(n);
      if removed {
        dropped := dropped + ({n} * Elements(q));
        assert {n} * old(queue.index) == {n};
      } else {
        assert {n} * old(queue.index) == {};
        KeepOutNothing(q, {});
      }
    }

    /** True if the node could be cancelled. */
    method CancelNode(n: NodeId) returns (cancelled: bool)
      modifies this, queue
      ensures View() == CancelNodeStep(old(View()), n)
      ensures cancelled <==> n in nodes && n in old(states) && old(states)[n] in {PENDING, IN_PROGRESS}
      ensures states == if cancelled then old(states)[n := ERROR] else old(states)
      ensures queue.deque == if cancelled && n in old(queue.index) then KeepOut(old(queue.deque), {n}) else old(queue.deque)
      ensures tasks == if cancelled && old(currentNodeId) == Some(n) then StartedOnly(old(currentTask), old(tasks)) else old(tasks)
      ensures isProcessing == old(isProcessing) && currentNodeId == old(currentNodeId)
    {
      if n !in nodes || n !in states || states[n] == COMPLETED || states[n] == ERROR {
        return false;
      }
      if currentNodeId == Some(n) {
        var _ := CancelCurrentTask();
      }
      RemoveFromQueue(n);
      states := states[n := ERROR];
      cancelled := true;
    }

    /** One node of a branch: its task if it is the current one, else its place in the queue. */
    method CancelInBranch(n: NodeId) returns (cancelled: bool)
      modifies this, queue
      ensures cancelled <==> Cancellable(old(View()), n)
      ensures View() ==
                if !cancelled then old(View())
                else if old(currentNodeId) == Some(n) then CancelCurrent(old(View())).(states := old(states)[n := ERROR])
                else TakeOut(old(View()), {n} * old(queue.index)).(states := old(states)[n := ERROR])
    {
      cancelled := n in nodes && n in states && states[n] != COMPLETED && states[n] != ERROR;
      if cancelled {
        if currentNodeId == Some(n) {
          var _ := CancelCurrentTask();
        } else {
          RemoveFromQueue(n);
        }
        states := states[n := ERROR];
      }
    }

    /** The loop over the nodes of a branch. */
    method CancelEach(branch: set<NodeId>) returns (cancelled: seq<NodeId>)
      modifies this, queue
      ensures View() == CancelBranchStep(old(View()), branch)
      ensures Distinct(cancelled) && Elements(cancelled) == CancellableIn(old(View()), branch)
    {
      ghost var s := View();
      var todo := branch;
      BranchNothing(s);
      assert branch - branch == {};
      hide CancelBranchStep, CancellableIn, Elements, Distinct, CancelCurrent, TakeOut;
      cancelled := [];
      NoneCancelled(s);
      while todo != {}
        invariant todo <= branch && View() == CancelBranchStep(s, branch - todo)
        invariant Distinct(cancelled) && Elements(cancelled) == CancellableIn(s, branch - todo)
        decreases |todo|
      {
        var n :| n in todo;
        ghost var done := branch - todo;
        BranchOneMore(s, done, n);
        OneMoreCancelled(s, done, cancelled, n);
        var one := CancelInBranch(n);
        if one {
          cancelled := cancelled + [n];
        }
        assert branch - (todo - {n}) == done + {n};
        todo := todo - {n};
      }
      assert branch - {} == branch;
    }

    /** Cancels the nodes of a branch one by one, in any order; returns those that could be cancelled. */
    method CancelBranch(branch: set<NodeId>) returns (cancelled: seq<NodeId>)
      modifies this, queue
      ensures View() == CancelBranchStep(old(View()), branch)
      ensures states.Keys == old(states).Keys && forall n :: n in states ==>
                states[n] == if n in branch && n in nodes && old(states)[n] in {PENDING, IN_PROGRESS} then ERROR else old(states)[n]
      ensures Distinct(cancelled) && forall n :: n in cancelled <==>
                n in branch && n in nodes && n in old(states) && old(states)[n] in {PENDING, IN_PROGRESS}
      ensures queue.deque == KeepOut(old(queue.deque), Waiting(cancelled, old(currentNodeId), old(queue.index)))
      ensures tasks == if old(currentNodeId).Some? && old(currentNodeId).value in cancelled
                       then StartedOnly(old(currentTask), old(tasks)) else old(tasks)
    {
      ghost var s := View();
      cancelled := CancelEach(branch);
      CancelBranchIs(s, branch, cancelled);
      hide *;
    }

    /** Empties the queue and fails every node found there; returns those that are still in the tree. */
    method DrainQueue() returns (drained: seq<NodeId>)
      requires nodes <= states.Keys
      modifies this`states, queue
      ensures queue.deque == [] && queue.index == old(queue.index) - Elements(old(queue.deque))
      ensures states == Failed(old(states), nodes * Elements(old(queue.deque)))
      ensures drained == KeepOut(old(queue.deque), Elements(old(queue.deque)) - nodes)
    {
      ghost var taken: seq<NodeId> := [];
      ghost var base, q, index := states, queue.deque, queue.index;
      drained := [];
      NothingDrained(q, index, base, nodes);
      hide *;
      while queue.deque != []
        invariant Draining(q, index, base, nodes, taken, queue.deque, queue.index, states, drained)
        decreases |queue.deque|
      {
        DrainedOneMore(q, index, base, nodes, taken, queue.deque, queue.index, states, drained);
        var item := queue.Get();
        taken := taken + [item.value];
        if item.value in nodes {
          states := states[item.value := ERROR];
          drained := drained + [item.value];
        }
      }
      AllDrained(q, index, base, nodes, taken, queue.index, states, drained);
    }

    /** Cancels the running task and fails its node, unless that has finished already; returns the node if so. */
    method CancelRunning() returns (failed: seq<NodeId>)
      requires nodes <= states.Keys
      modifies this`tasks, this`states
      ensures View() == CancelCurrent(old(View())).(states := states) && states.Keys == old(states).Keys
      ensures failed == RunningCancelled(old(View()))
      ensures forall n :: n in states ==>
                states[n] == old(states)[n] || (n in nodes && !Terminal(old(states)[n]) && states[n] == ERROR)
    {
      var cancelled := CancelCurrentTask();
      failed := [];
      if cancelled && currentNodeId.Some? {
        var n := currentNodeId.value;
        if n in nodes && states[n] != COMPLETED && states[n] != ERROR {
          states := states[n := ERROR];
          failed := [n];
        }
      }
    }

    /** Task, queue and leftover nodes; then the flags. */
    method CancelAll() returns (cancelled: seq<NodeId>)
      requires nodes <= states.Keys
      modifies this, queue
      ensures View() == CancelTreeStep(old(View()))
      ensures cancelled == RunningCancelled(old(View())) + KeepOut(old(queue.deque), Elements(old(queue.deque)) - nodes)
    {
      hide CancelCurrent, KeepOut, Elements, Failed, StartedOnly, RunningCancelled;
      ghost var s := View();
      cancelled := CancelRunning();
      ghost var base := states;
      var drainedNodes := DrainQueue();
      cancelled := cancelled + drainedNodes;
      ghost var drained := states;
      var open := set n | n in nodes && !Terminal(states[n]);
      states := Failed(states, open);
      dropped := dropped + Elements(s.queue);
      isProcessing, currentNodeId := false, None;
      FailedInAll(s, base, drained);
      assert View() == CancelTreeStep(s);
    }

    /**
     * Cancels the running task, drains the queue, fails what is left and
     * resets the flags; returns the node that was being processed and those
     * that were queued.
     */
    method CancelTree() returns (cancelled: seq<NodeId>)
      requires nodes <= states.Keys
      modifies this, queue
      ensures View() == CancelTreeStep(old(View()))
      ensures queue.deque == [] && !isProcessing && currentNodeId == None
      ensures tasks == StartedOnly(old(currentTask), old(tasks))
      ensures states.Keys == old(states).Keys && forall n :: n in states ==>
                states[n] ==
                  if n in nodes && (old(states)[n] in {PENDING, IN_PROGRESS} || n in old(queue.deque)) then ERROR else old(states)[n]
      ensures var running := old(currentTask.Some? && currentTask.value in tasks && currentNodeId.Some?)
                             && old(currentNodeId).value in nodes && old(states)[old(currentNodeId).value] in {PENDING, IN_PROGRESS};
              cancelled == (if running then [old(currentNodeId).value] else [])
                           + KeepOut(old(queue.deque), Elements(old(queue.deque)) - nodes)
    {
      ghost var s := View();
      cancelled := CancelAll();
      CancelTreeIs(s);
      RunningCancelledIs(s);
      hide *;
    }
  }

  lemma CancelTreeIs(s: Sched)
    ensures var s' := CancelTreeStep(s);
            && s'.queue == [] && !s'.busy && s'.current == None
            && s'.tasks == StartedOnly(s.currentTask, s.tasks)
            && s'.states.Keys == s.states.Keys && forall n :: n in s.states ==>
                 s'.states[n] ==
                   if n in s.live && (s.states[n] in {PENDING, IN_PROGRESS} || n in s.queue) then ERROR else s.states[n]
  {
  }

  /** The current node, if its task can still be cancelled and it has not finished. */
  function RunningCancelled(s: Sched): seq<NodeId> {
    if s.currentTask.Some? && s.currentTask.value in s.tasks && s.current.Some? && Cancellable(s, s.current.value)
    then [s.current.value] else []
  }

  lemma RunningCancelledIs(s: Sched)
    requires s.live <= s.states.Keys
    ensures var running := s.currentTask.Some? && s.currentTask.value in s.tasks && s.current.Some?
                           && s.current.value in s.live && s.states[s.current.value] in {PENDING, IN_PROGRESS};
            RunningCancelled(s) == if running then [s.current.value] else []
  {
  }

  function CancellableIn(s: Sched, branch: set<NodeId>): set<NodeId> {
    set n | n in branch && Cancellable(s, n)
  }

  lemma CancelBranchIs(s: Sched, branch: set<NodeId>, cancelled: seq<NodeId>)
    requires Elements(cancelled) == CancellableIn(s, branch)
    ensures forall n :: n in cancelled <==> n in branch && n in s.live && n in s.states && s.states[n] in {PENDING, IN_PROGRESS}
    ensures var s' := CancelBranchStep(s, branch);
            && s'.states.Keys == s.states.Keys
            && (forall n :: n in s.states ==>
                  s'.states[n] == if n in branch && n in s.live && s.states[n] in {PENDING, IN_PROGRESS} then ERROR else s.states[n])
            && s'.queue == KeepOut(s.queue, Waiting(cancelled, s.current, s.index))
            && s'.tasks == if s.current.Some? && s.current.value in cancelled then StartedOnly(s.currentTask, s.tasks) else s.tasks
  {
    assert forall n :: n in cancelled <==> n in Elements(cancelled);
    assert BranchDrop(s, branch) == Waiting(cancelled, s.current, s.index);
    if s.current.Some? && s.current.value in cancelled {
      assert s.current.value in branch && Cancellable(s, s.current.value);
    }
  }

  lemma NoneCancelled(s: Sched)
    ensures Distinct<NodeId>([]) && Elements([]) == CancellableIn(s, {})
  {
  }

  lemma OneMoreCancelled(s: Sched, done: set<NodeId>, cancelled: seq<NodeId>, n: NodeId)
    requires n !in done && Distinct(cancelled) && Elements(cancelled) == CancellableIn(s, done)
    ensures if Cancellable(s, n)
            then Distinct(cancelled + [n]) && Elements(cancelled + [n]) == CancellableIn(s, done + {n})
            else Elements(cancelled) == CancellableIn(s, done + {n})
  {
    hide Cancellable;
    assert forall i :: 0 <= i < |cancelled| ==> cancelled[i] in Elements(cancelled);
    assert Elements(cancelled + [n]) == Elements(cancelled) + {n};
  }

  /** What has been taken off the queue so far has failed, as far as it is in the tree. */
  ghost predicate Draining(q: seq<NodeId>, index: set<NodeId>, base: map<NodeId, MessageState>, nodes: set<NodeId>,
                           taken: seq<NodeId>, rest: seq<NodeId>, index': set<NodeId>, states: map<NodeId, MessageState>,
                           drained: seq<NodeId>)
  {
    && q == taken + rest && index' == index - Elements(taken)
    && states == Failed(base, nodes * Elements(taken)) && drained == KeepOut(taken, Elements(q) - nodes)
  }

  lemma NothingDrained(q: seq<NodeId>, index: set<NodeId>, base: map<NodeId, MessageState>, nodes: set<NodeId>)
    ensures Draining(q, index, base, nodes, [], q, index, base, [])
  {
    assert base == Failed(base, nodes * Elements([]));
  }

  lemma DrainedOneMore(q: seq<NodeId>, index: set<NodeId>, base: map<NodeId, MessageState>, nodes: set<NodeId>,
                       taken: seq<NodeId>, rest: seq<NodeId>, index': set<NodeId>, states: map<NodeId, MessageState>,
                       drained: seq<NodeId>)
    requires Draining(q, index, base, nodes, taken, rest, index', states, drained) && rest != [] && nodes <= base.Keys
    ensures var n := rest[0];
            if n in nodes
            then Draining(q, index, base, nodes, taken + [n], rest[1..], index' - {n}, states[n := ERROR], drained + [n])
            else Draining(q, index, base, nodes, taken + [n], rest[1..], index' - {n}, states, drained)
  {
    var n := rest[0];
    OneMoreElement(taken, n);
    FailedOneMore(base, nodes, Elements(taken), n);
    KeptOneMore(q, nodes, taken, rest);
    hide Failed, KeepOut;
    assert taken + rest == taken + [n] + rest[1..];
    assert index - (Elements(taken) + {n}) == index - Elements(taken) - {n};
  }

  lemma OneMoreElement(taken: seq<NodeId>, n: NodeId)
    ensures Elements(taken + [n]) == Elements(taken) + {n}
  {
  }

  lemma KeptOneMore(q: seq<NodeId>, nodes: set<NodeId>, taken: seq<NodeId>, rest: seq<NodeId>)
    requires q == taken + rest && rest != []
    ensures var dead := Elements(q) - nodes;
            KeepOut(taken + [rest[0]], dead) == KeepOut(taken, dead) + if rest[0] in nodes then [rest[0]] else []
  {
    var (n, dead) := (rest[0], Elements(q) - nodes);
    assert n == q[|taken|];
    hide KeepOut;
    KeepOutConcat(taken, [n], dead);
    KeepOutSingle(n, dead);
    assert KeepOut(taken, dead) + [] == KeepOut(taken, dead);
  }

  lemma AllDrained(q: seq<NodeId>, index: set<NodeId>, base: map<NodeId, MessageState>, nodes: set<NodeId>,
                   taken: seq<NodeId>, index': set<NodeId>, states: map<NodeId, MessageState>, drained: seq<NodeId>)
    requires Draining(q, index, base, nodes, taken, [], index', states, drained)
    ensures index' == index - Elements(q) && states == Failed(base, nodes * Elements(q))
    ensures drained == KeepOut(q, Elements(q) - nodes)
  {
    assert taken + [] == taken;
  }

  lemma FailedOneMore(states: map<NodeId, MessageState>, nodes: set<NodeId>, taken: set<NodeId>, n: NodeId)
    requires nodes <= states.Keys
    ensures Failed(states, nodes * (taken + {n})) ==
              if n in nodes then Failed(states, nodes * taken)[n := ERROR] else Failed(states, nodes * taken)
  {
  }

  lemma KeepOutSingle(n: NodeId, drop: set<NodeId>)
    ensures KeepOut([n], drop) == if n in drop then [] else [n]
  {
    assert [n][1..] == [];
  }

  /** Failing the current node, then the queued ones, then all that are left, is failing them all at once. */
  lemma FailedInAll(s: Sched, base: map<NodeId, MessageState>, drained: map<NodeId, MessageState>)
    requires s.live <= s.states.Keys && base.Keys == s.states.Keys
    requires forall n :: n in base ==> base[n] == s.states[n] || (n in s.live && !Terminal(s.states[n]) && base[n] == ERROR)
    requires drained == Failed(base, s.live * Elements(s.queue))
    ensures Failed(drained, set n | n in s.live && !Terminal(drained[n])) ==
              map n | n in s.states ::
                if n in s.live && (!Terminal(s.states[n]) || n in s.queue) then ERROR else s.states[n]
  {
  }

  function Failed(states: map<NodeId, MessageState>, ns: set<NodeId>): (failed: map<NodeId, MessageState>)
    ensures failed.Keys == states.Keys
  {
    map n | n in states :: if n in ns then ERROR else states[n]
  }

  lemma BranchNothing(s: Sched)
    ensures CancelBranchStep(s, {}) == s
  {
    KeepOutNothing(s.queue, {});
    assert BranchDrop(s, {}) == {};
  }

  /** Cancelling one more node of a branch after those already done. */
  lemma BranchOneMore(s: Sched, done: set<NodeId>, n: NodeId)
    requires n !in done
    ensures var s1 := CancelBranchStep(s, done);
            && (Cancellable(s1, n) <==> Cancellable(s, n))
            && CancelBranchStep(s, done + {n}) ==
                 if !Cancellable(s, n) then s1
                 else if s.current == Some(n) then CancelCurrent(s1).(states := s1.states[n := ERROR])
                 else TakeOut(s1, {n} * s1.index).(states := s1.states[n := ERROR])
  {
    var d := BranchDrop(s, done);
    var e := if Cancellable(s, n) && s.current != Some(n) then {n} * s.index else {};
    BranchDropOneMore(s, done, n);
    BranchStates(s, done, n);
    assert (exists m :: m in done + {n} && Cancellable(s, m) && s.current == Some(m)) <==>
           (exists m :: m in done && Cancellable(s, m) && s.current == Some(m)) || (Cancellable(s, n) && s.current == Some(n));
    var before := if exists m :: m in done && Cancellable(s, m) && s.current == Some(m) then CancelCurrent(s) else s;
    TakeOutTwice(before, d, e);
    assert d + {} == d;
    hide TakeOut, BranchDrop, Cancellable;
  }

  lemma BranchDropOneMore(s: Sched, done: set<NodeId>, n: NodeId)
    requires n !in done
    ensures var e := if Cancellable(s, n) && s.current != Some(n) then {n} * s.index else {};
            && BranchDrop(s, done + {n}) == BranchDrop(s, done) + e && BranchDrop(s, done) !! e
            && {n} * CancelBranchStep(s, done).index == {n} * s.index
  {
  }

  lemma TakeOutTwice(s: Sched, d: set<NodeId>, e: set<NodeId>)
    requires d !! e
    ensures TakeOut(TakeOut(s, d), e) == TakeOut(s, d + e)
  {
    KeepOutTwice(s.queue, d, e);
    KeepOutElements(s.queue, d);
    hide KeepOut;
    assert (d + e) * Elements(s.queue) == d * Elements(s.queue) + e * (Elements(s.queue) - d);
    assert s.index - (d + e) == s.index - d - e;
  }

  lemma BranchStates(s: Sched, done: set<NodeId>, n: NodeId)
    requires n !in done
    ensures var s1 := CancelBranchStep(s, done);
            && (Cancellable(s1, n) <==> Cancellable(s, n))
            && CancelBranchStep(s, done + {n}).states ==
                 if Cancellable(s, n) then s1.states[n := ERROR] else s1.states
  {
  }
}
