/**
 * Safety of the per-tree scheduler over all runs, the exact conditions under
 * which each step is safe, and what goes wrong otherwise.
 */
module TreeQueueProofs {
  import opened Text
  import opened TreeQueue

  // ----- The queue as a sequence with ids taken out -----

  lemma {:induction false} KeepOutConcat(a: seq<NodeId>, b: seq<NodeId>, drop: set<NodeId>)
    ensures KeepOut(a + b, drop) == KeepOut(a, drop) + KeepOut(b, drop)
  {
    if a == [] {
      assert a + b == b;
    } else {
      KeepOutConcat(a[1..], b, drop);
      assert (a + b)[1..] == a[1..] + b && (a + b)[0] == a[0];
    }
  }

  lemma {:induction false} KeepOutTwice(q: seq<NodeId>, d: set<NodeId>, e: set<NodeId>)
    ensures KeepOut(KeepOut(q, d), e) == KeepOut(q, d + e)
  {
    if q != [] {
      KeepOutTwice(q[1..], d, e);
    }
  }

  lemma {:induction false} KeepOutElements(q: seq<NodeId>, drop: set<NodeId>)
    ensures Elements(KeepOut(q, drop)) == Elements(q) - drop
    ensures Distinct(q) ==> Distinct(KeepOut(q, drop))
  {
    if q != [] {
      KeepOutElements(q[1..], drop);
      var rest := KeepOut(q[1..], drop);
      assert Elements(q) == {q[0]} + Elements(q[1..]);
      if q[0] !in drop {
        assert Elements([q[0]] + rest) == {q[0]} + Elements(rest);
        if Distinct(q) {
          assert forall i :: 0 <= i < |rest| ==> rest[i] in Elements(rest);
          assert q[0] !in Elements(q[1..]);
        }
      }
    }
  }

  /** What is kept is every id that is not dropped, in its order. */
  lemma {:induction false} KeepOutIs(q: seq<NodeId>, drop: set<NodeId>) returns (at: seq<nat>)
    ensures Increasing(at, |q|) && |at| == |KeepOut(q, drop)|
    ensures forall k :: 0 <= k < |at| ==> KeepOut(q, drop)[k] == q[at[k]]
    ensures forall i :: 0 <= i < |q| ==> (i in at <==> q[i] !in drop)
  {
    at := [];
    if q != [] {
      var n := |q| - 1;
      var before := q[..n];
      at := KeepOutIs(before, drop);
      OneMoreAt(at, n);
      KeepOutConcat(before, [q[n]], drop);
      assert q == before + [q[n]] && KeepOut([q[n]], drop) == if q[n] in drop then [] else [q[n]];
      assert forall i :: 0 <= i < n ==> before[i] == q[i];
      hide KeepOut, Increasing;
      if q[n] !in drop { at := at + [n]; }
    }
  }

  lemma {:induction false} KeepOutNothing(q: seq<NodeId>, drop: set<NodeId>)
    requires Elements(q) !! drop
    ensures KeepOut(q, drop) == q
  {
    if q != [] {
      assert q[0] in Elements(q) && Elements(q[1..]) <= Elements(q);
      KeepOutNothing(q[1..], drop);
    }
  }

  /** Started ids and queued ids are all different. */
  lemma StartedOrQueued(s: Sched)
    requires Conserved(s)
    ensures Distinct(s.started) && Distinct(s.queue) && Elements(s.started) !! Elements(s.queue)
    ensures Elements(s.started) + Elements(s.queue) == Elements(s.enqueued) - s.dropped
  {
    var all := s.started + s.queue;
    KeepOutElements(s.enqueued, s.dropped);
    assert forall i :: 0 <= i < |s.started| ==> all[i] == s.started[i];
    assert forall i :: 0 <= i < |s.queue| ==> all[|s.started| + i] == s.queue[i];
    assert Elements(all) == Elements(s.started) + Elements(s.queue);
  }

  /** Taking the head off keeps the membership set right exactly when the head is not queued twice. */
  lemma GetKeepsIndexExactly(q: seq<NodeId>)
    requires q != []
    ensures Elements(q) - {q[0]} == Elements(q[1..]) <==> q[0] !in q[1..]
  {
  }

  // ----- Every step, with the exact condition -----

  lemma TakeOutKeeps(s: Sched, drop: set<NodeId>)
    requires Conserved(s) && s.index == Elements(s.queue) && drop <= Elements(s.queue)
    ensures Conserved(TakeOut(s, drop))
    ensures TakeOut(s, drop).index == Elements(TakeOut(s, drop).queue) <= Elements(s.queue)
    ensures s.queue == [] ==> TakeOut(s, drop).queue == []
  {
    StartedOrQueued(s);
    KeepOutElements(s.queue, drop);
    KeepOutNothing(s.started, drop);
    KeepOutConcat(s.started, s.queue, drop);
    KeepOutTwice(s.enqueued, s.dropped, drop);
    assert drop * Elements(s.queue) == drop;
    assert Elements(s.queue) <= Elements(s.enqueued);
  }

  /** Handing over when no task is left, from a queue of live ids. */
  lemma HandOver(s: Sched)
    requires s.tasks == map[] && Conserved(s) && s.index == Elements(s.queue) && Elements(s.queue) <= s.live
    requires s.live <= s.states.Keys && (forall n :: n in s.enqueued ==> n in s.states)
    ensures Inv(ProcessNext(s))
  {
    StartedOrQueued(s);
    if s.queue != [] {
      var n := s.queue[0];
      assert n in Elements(s.queue);
      assert Elements(s.queue[1..]) == Elements(s.queue) - {n} by {
        assert forall i :: 0 < i < |s.queue| ==> s.queue[i] != n;
        assert forall x :: x in s.queue[1..] ==> x in s.queue;
        assert forall x :: x in s.queue && x != n ==> x in s.queue[1..] by { assert s.queue == [n] + s.queue[1..]; }
      }
      assert s.started + s.queue == s.started + [n] + s.queue[1..];
    }
  }

  lemma EnqueueConserves(s: Sched, n: NodeId)
    requires Conserved(s)
    ensures Distinct(s.enqueued + [n]) <==> n !in s.enqueued
    ensures n !in s.enqueued ==>
              KeepOut(s.enqueued + [n], s.dropped) == s.started + s.queue + [n] && s.dropped <= Elements(s.enqueued + [n])
  {
    var more := s.enqueued + [n];
    if n in s.enqueued {
      var i :| 0 <= i < |s.enqueued| && s.enqueued[i] == n;
      assert more[i] == more[|s.enqueued|];
    } else {
      KeepOutConcat(s.enqueued, [n], s.dropped);
      assert n !in Elements(s.enqueued);
      assert KeepOut([n], s.dropped) == [n] + KeepOut([], s.dropped);
      assert Elements(more) == Elements(s.enqueued) + {n};
    }
  }

  lemma EnqueueExactly(s: Sched, n: NodeId)
    requires Inv(s) && n in s.states
    ensures Inv(EnqueueStep(s, n)) <==> n in s.live && n !in s.enqueued && !Unwinding(s)
  {
    EnqueueConserves(s, n);
    hide KeepOut, Distinct;
    if s.busy {
      assert Elements(s.queue + [n]) == Elements(s.queue) + {n};
      assert s.started + (s.queue + [n]) == s.started + s.queue + [n];
    } else {
      assert s.started + [n] + [] == s.started + s.queue + [n];
      if Unwinding(s) {
        EnqueueOverlaps(s, n);
      } else {
        assert s.tasks[s.nextTask := Task(n, CREATED)].Keys == {s.nextTask};
      }
    }
  }

  /** A task started under one that unwinds does not replace it. */
  lemma EnqueueOverlaps(s: Sched, n: NodeId)
    requires Inv(s) && Unwinding(s)
    ensures var s' := EnqueueStep(s, n);
            if n in s.live then s'.tasks.Keys == {s.currentTask.value, s.nextTask} && s'.currentTask == Some(s.nextTask) && !SoleTask(s')
            else n in s.enqueued || s'.current != Some(s.tasks[s.currentTask.value].node)
  {
    var t := s.currentTask.value;
    StartedOrQueued(s);
    assert t in s.tasks.Keys && s.tasks[t].node in Elements(s.started);
    assert t in EnqueueStep(s, n).tasks.Keys && t != s.nextTask;
  }

  lemma FinishKeeps(s: Sched, t: nat, raised: bool)
    requires Inv(s) && Enabled(s, Finish(t, raised))
    ensures Inv(FinishStep(s, t, raised))
  {
    var n := s.tasks[t].node;
    var states := if raised && n in s.live then s.states[n := ERROR] else s.states;
    assert s.tasks - {t} == map[];
    HandOver(s.(tasks := s.tasks - {t}, states := states, current := None));
  }

  lemma BeginKeeps(s: Sched, t: nat)
    requires Inv(s) && Enabled(s, Begin(t))
    ensures Inv(BeginStep(s, t))
  {
    if s.states[s.tasks[t].node] == ERROR {
      assert s.tasks - {t} == map[];
      HandOver(s.(tasks := s.tasks - {t}));
    }
  }

  /** Cancelling a task that has not run leaves the tree busy without an owner. */
  lemma CancelExactly(s: Sched, drop: set<NodeId>, states: map<NodeId, MessageState>, cancels: bool)
    requires Inv(s) && drop <= s.index && states.Keys == s.states.Keys
    ensures var s1 := if cancels then CancelCurrent(s) else s;
            Inv(TakeOut(s1, drop).(states := states)) <==> CancelCurrent(s) == s || !cancels
  {
    var s1 := if cancels then CancelCurrent(s) else s;
    TakeOutKeeps(s, drop);
    var s' := TakeOut(s1, drop).(states := states);
    assert s'.queue == TakeOut(s, drop).queue && s'.index == TakeOut(s, drop).index;
    assert Conserved(s');
    if s1 != s {
      assert s'.busy && s'.currentTask.value !in s'.tasks;
    }
  }

  lemma CancelNodeExactly(s: Sched, n: NodeId)
    requires Inv(s)
    ensures Inv(CancelNodeStep(s, n)) <==> !HitsUnstarted(s, {n})
  {
    if Cancellable(s, n) {
      CancelExactly(s, {n} * s.index, s.states[n := ERROR], s.current == Some(n));
      UnstartedChanges(s);
    }
  }

  lemma CancelBranchExactly(s: Sched, branch: set<NodeId>)
    requires Inv(s)
    ensures Inv(CancelBranchStep(s, branch)) <==> !HitsUnstarted(s, branch)
  {
    var states := map n | n in s.states :: if n in branch && Cancellable(s, n) then ERROR else s.states[n];
    var cancels := exists n :: n in branch && Cancellable(s, n) && s.current == Some(n);
    CancelExactly(s, BranchDrop(s, branch), states, cancels);
    UnstartedChanges(s);
  }

  lemma UnstartedChanges(s: Sched)
    ensures CancelCurrent(s) != s <==>
              s.currentTask.Some? && s.currentTask.value in s.tasks && s.tasks[s.currentTask.value].phase == CREATED
  {
  }

  lemma NoElements(q: seq<NodeId>)
    ensures q != [] ==> Elements(q) != {}
  {
    if q != [] { assert q[0] in Elements(q); }
  }

  /** Cancelling the tree is always safe in itself; a running task is left to unwind. */
  lemma CancelTreeKeeps(s: Sched)
    requires Inv(s)
    ensures Inv(CancelTreeStep(s))
    ensures Unwinding(CancelTreeStep(s)) <==> exists t :: t in s.tasks && s.tasks[t].phase == RUNNING
  {
    var s' := CancelTreeStep(s);
    TakeOutKeeps(s, Elements(s.queue));
    KeepOutElements(s.queue, Elements(s.queue));
    NoElements(KeepOut(s.queue, Elements(s.queue)));
    assert Conserved(s') by { assert Elements(s.queue) * Elements(s.queue) == Elements(s.queue); }
    CancelTreeOwner(s);
  }

  lemma CancelTreeOwner(s: Sched)
    requires OneOwner(s)
    ensures OneOwner(CancelTreeStep(s))
    ensures Unwinding(CancelTreeStep(s)) <==> exists t :: t in s.tasks && s.tasks[t].phase == RUNNING
  {
    var s' := CancelTreeStep(s);
    if s.tasks != map[] {
      var t := s.currentTask.value;
      assert t in s.tasks.Keys;
      if s.tasks[t].phase == CREATED {
        assert s'.tasks == map[];
        assert forall u :: u in s.tasks ==> u == t;
      } else {
        assert t in s'.tasks;
      }
    }
  }

  /**
   * Each step keeps the invariant exactly when it is safe: the conditions are
   * necessary as well as sufficient.
   */
  lemma StepKeepsExactly(s: Sched, a: Action)
    requires Inv(s) && Enabled(s, a)
    ensures Inv(Step(s, a)) <==> Safe(s, a)
  {
    match a
    case AddNode(n) =>
    case SetState(n, state) =>
    case Enqueue(n) => EnqueueExactly(s, n);
    case Begin(t) => BeginKeeps(s, t);
    case Finish(t, raised) => FinishKeeps(s, t, raised);
    case CancelNode(n) => CancelNodeExactly(s, n);
    case CancelBranch(branch) => CancelBranchExactly(s, branch);
    case RemoveBranch(branch) =>
      assert Elements(s.queue) <= s.live - branch <==> forall n :: n in s.queue ==> n !in branch;
    case CancelTree => CancelTreeKeeps(s);
  }

  // ----- Runs -----

  /** Each action can happen in the state that those before it lead to. */
  ghost predicate EnabledRun(s: Sched, actions: seq<Action>)
    decreases |actions|
  {
    actions != [] ==> Enabled(s, actions[0]) && EnabledRun(Step(s, actions[0]), actions[1..])
  }

  function Perform(s: Sched, actions: seq<Action>): Sched
    requires EnabledRun(s, actions)
    decreases |actions|
  {
    if actions == [] then s else Perform(Step(s, actions[0]), actions[1..])
  }

  ghost predicate SafeRun(s: Sched, actions: seq<Action>)
    decreases |actions|
  {
    && EnabledRun(s, actions)
    && (actions != [] ==> Safe(s, actions[0]) && SafeRun(Step(s, actions[0]), actions[1..]))
  }

  lemma {:induction false} RunKeeps(s: Sched, actions: seq<Action>)
    requires Inv(s) && SafeRun(s, actions)
    ensures Inv(Perform(s, actions))
    ensures !Unwinding(s) && CancelTree !in actions ==> !Unwinding(Perform(s, actions))
    decreases |actions|
  {
    if actions != [] {
      hide Inv, Safe;
      StepKeepsExactly(s, actions[0]);
      if !Unwinding(s) && actions[0] != CancelTree { OnlyCancelTreeUnwinds(s, actions[0]); }
      RunKeeps(Step(s, actions[0]), actions[1..]);
    }
  }

  /** No other step leaves a task running in a tree that is marked free. */
  lemma OnlyCancelTreeUnwinds(s: Sched, a: Action)
    requires Inv(s) && Enabled(s, a) && Safe(s, a) && a != CancelTree && !Unwinding(s)
    ensures !Unwinding(Step(s, a))
  {
    StepKeepsExactly(s, a);
    hide Conserved;
    if s.tasks != map[] {
      var t := s.currentTask.value;
      assert s.tasks - {t} == map[];
    }
  }

  ghost predicate FoundAt(a: seq<NodeId>, b: seq<NodeId>, at: seq<nat>) {
    Increasing(at, |b|) && |at| == |a| && forall k :: 0 <= k < |at| ==> a[k] == b[at[k]]
  }

  /** The ids of a are found in b, in the same order. */
  ghost predicate IsSubsequence(a: seq<NodeId>, b: seq<NodeId>) {
    exists at :: FoundAt(a, b, at)
  }

  lemma KeptPrefixIsSubsequence(a: seq<NodeId>, q: seq<NodeId>, drop: set<NodeId>)
    requires a <= KeepOut(q, drop)
    ensures IsSubsequence(a, q)
  {
    var at := KeepOutIs(q, drop);
    assert FoundAt(a, q, at[..|a|]);
  }

  /**
   * After every safe run there is at most one task; a busy tree has one, which
   * owes a hand-over, and queued messages mean a busy tree. Unless the tree was
   * cancelled as a whole, a tree with a task is busy. Every enqueued id is
   * exactly one of started once, still queued, or cancelled, with the starts in
   * the order of enqueueing.
   */
  lemma {:induction false} NothingStranded(actions: seq<Action>)
    requires SafeRun(INIT, actions)
    ensures var s := Perform(INIT, actions);
            && |s.tasks| <= 1 && (s.busy ==> |s.tasks| == 1)
            && (CancelTree !in actions ==> (s.busy <==> |s.tasks| == 1))
            && (s.queue != [] ==> s.busy)
            && Accounted(s) && IsSubsequence(s.started, s.enqueued)
  {
    assert Inv(INIT);
    hide Perform, SafeRun, EnabledRun;
    RunKeeps(INIT, actions);
    AllAccounted(Perform(INIT, actions));
  }

  /** Every enqueued id is exactly one of started once, still queued once, or cancelled. */
  ghost predicate Accounted(s: Sched) {
    && Distinct(s.started) && Distinct(s.queue)
    && (forall n :: n in s.enqueued <==> n in s.started || n in s.queue || n in s.dropped)
    && Elements(s.started) !! Elements(s.queue) && (Elements(s.started) + Elements(s.queue)) !! s.dropped
  }

  lemma AllAccounted(s: Sched)
    requires Inv(s)
    ensures Accounted(s) && IsSubsequence(s.started, s.enqueued)
    ensures |s.tasks| <= 1 && (s.busy ==> |s.tasks| == 1) && (!Unwinding(s) ==> (s.busy <==> |s.tasks| == 1))
  {
    hide KeepOut, IsSubsequence;
    assert |s.tasks| == |s.tasks.Keys|;
    StartedOrQueued(s);
    forall n
      ensures n in s.enqueued <==> n in s.started || n in s.queue || n in s.dropped
    {
      assert n in Elements(s.started) + Elements(s.queue) <==> n in Elements(s.enqueued) - s.dropped;
    }
    assert s.started == (s.started + s.queue)[..|s.started|];
    KeptPrefixIsSubsequence(s.started, s.enqueued, s.dropped);
  }

  // ----- Letting the tasks finish -----

  predicate OnlyTasksRun(actions: seq<Action>) {
    forall i :: 0 <= i < |actions| ==> actions[i].Begin? || actions[i].Finish?
  }

  /** How many steps the tasks can still take. */
  function StepsLeft(s: Sched): nat {
    2 * |s.queue| + if s.tasks == map[] then 0 else if exists t :: t in s.tasks && s.tasks[t].phase == CREATED then 2 else 1
  }

  /** A step of a task takes the head of the queue to the started ones, or nothing. */
  lemma TaskStep(s: Sched, a: Action)
    requires Inv(s) && Enabled(s, a) && (a.Begin? || a.Finish?)
    ensures Inv(Step(s, a)) && StepsLeft(Step(s, a)) < StepsLeft(s)
    ensures Step(s, a).started + Step(s, a).queue == s.started + s.queue
  {
    StepKeepsExactly(s, a);
    hide Conserved, KeepOut;
    var (t, s') := (s.currentTask.value, Step(s, a));
    assert t in s.tasks.Keys && a.t in s.tasks.Keys && a.t == t;
    assert s.tasks - {t} == map[];
    assert s.tasks.Keys == {t};
    HeadMoves(s.started, s.queue);
    if s.queue != [] && s'.tasks != s.tasks[t := s.tasks[t].(phase := RUNNING)] {
      assert s.queue[0] in Elements(s.queue);
    }
  }

  lemma HeadMoves(started: seq<NodeId>, queue: seq<NodeId>)
    ensures queue != [] ==> started + [queue[0]] + queue[1..] == started + queue
  {
  }

  /**
   * From any state that safe runs lead to, when nothing else happens any more:
   * the tasks take a bounded number of steps, and when they can take no more
   * the tree is free and every queued node has been started, in order.
   */
  lemma {:induction false} AllAreStarted(s: Sched, actions: seq<Action>)
    requires Inv(s) && EnabledRun(s, actions) && OnlyTasksRun(actions)
    ensures var end := Perform(s, actions);
            && Inv(end) && |actions| + StepsLeft(end) <= StepsLeft(s) && end.started + end.queue == s.started + s.queue
            && (NoTaskCanRun(end) ==>
                  !end.busy && end.queue == [] && end.tasks == map[] && end.started == s.started + s.queue)
    decreases |actions|
  {
    if actions == [] {
      if NoTaskCanRun(s) { AllIsDone(s); }
      assert s.queue == [] ==> s.started + s.queue == s.started;
    } else {
      var next := Step(s, actions[0]);
      TaskStep(s, actions[0]);
      hide Inv, StepsLeft, Enabled, Step;
      assert forall i :: 0 <= i < |actions[1..]| ==> actions[1..][i] == actions[i + 1];
      AllAreStarted(next, actions[1..]);
    }
  }

  ghost predicate NoTaskCanRun(s: Sched) {
    forall a: Action :: a.Begin? || a.Finish? ==> !Enabled(s, a)
  }

  lemma TaskCanRun(s: Sched)
    requires Inv(s)
    ensures s.tasks != map[] ==> !NoTaskCanRun(s)
  {
    if s.tasks != map[] {
      var t := s.currentTask.value;
      assert t in s.tasks.Keys;
      if s.tasks[t].phase == CREATED { assert Enabled(s, Begin(t)); } else { assert Enabled(s, Finish(t, false)); }
    }
  }

  lemma AllIsDone(s: Sched)
    requires Inv(s) && NoTaskCanRun(s)
    ensures !s.busy && s.queue == [] && s.tasks == map[]
  {
    TaskCanRun(s);
    assert s.tasks.Keys == {};
  }

  // ----- What the unsafe steps lead to -----

  /** Busy, but no task is left to hand over. */
  ghost predicate Stuck(s: Sched) {
    s.busy && s.tasks == map[]
  }

  /** Only cancelling the whole tree gets a stuck tree going again: nothing that is queued ever starts. */
  lemma StuckStays(s: Sched, a: Action)
    requires Stuck(s) && Enabled(s, a) && a != CancelTree
    ensures Stuck(Step(s, a)) && Step(s, a).started == s.started
  {
  }

  /** Cancelling a started task before its first run always sticks the tree. */
  lemma CancelBeforeFirstRunSticks(s: Sched, n: NodeId)
    requires Inv(s) && HitsUnstarted(s, {n})
    ensures Stuck(CancelNodeStep(s, n))
  {
  }

  /** A dead id at the head of the queue sticks the tree at the next hand-over. */
  lemma DeadHeadSticks(s: Sched, t: nat, raised: bool)
    requires OneOwner(s) && Enabled(s, Finish(t, raised))
    requires s.queue != [] && s.queue[0] !in s.live
    ensures Stuck(FinishStep(s, t, raised))
  {
  }

  /**
   * Clearing a branch, even with nothing between its two halves, is safe
   * exactly when no queued node of the branch is in a terminal state: those
   * are skipped by the cancellation and removed from the tree all the same.
   */
  lemma ClearBranchExactly(s: Sched, branch: set<NodeId>)
    requires Inv(s) && !HitsUnstarted(s, branch)
    ensures var s1 := CancelBranchStep(s, branch);
            Inv(s1) && (Safe(s1, RemoveBranch(branch)) <==>
              forall n :: n in s.queue && n in branch ==> !Terminal(s.states[n]))
  {
    CancelBranchExactly(s, branch);
    StartedOrQueued(s);
    KeepOutElements(s.queue, BranchDrop(s, branch));
    var s1 := CancelBranchStep(s, branch);
    assert s.current.Some? ==> s.current.value in Elements(s.started);
    forall n | n in s.queue
      ensures n in s1.queue <==> n !in BranchDrop(s, branch)
      ensures n in BranchDrop(s, branch) <==> n in branch && !Terminal(s.states[n])
    {
      assert n in Elements(s.queue);
      assert n in Elements(s1.queue) <==> n in s1.queue;
    }
    forall n | n in s1.queue
      ensures n in s.queue
    {
      assert n in Elements(s1.queue) && Elements(s1.queue) <= Elements(s.queue);
    }
  }

  /**
   * Two tasks at once come about in exactly one way: a live node is enqueued
   * before the task of a cancelled tree has unwound.
   */
  lemma TwoAtOnceExactly(s: Sched, a: Action)
    requires Inv(s) && Enabled(s, a)
    ensures |Step(s, a).tasks| > 1 <==> Unwinding(s) && a.Enqueue? && a.n in s.live
  {
    hide Conserved;
    var s' := Step(s, a);
    assert |s.tasks| == |s.tasks.Keys| <= 1;
    assert |s'.tasks| == |s'.tasks.Keys|;
    if Unwinding(s) && a.Enqueue? && a.n in s.live {
      assert s'.tasks.Keys == {s.currentTask.value, s.nextTask} && s.currentTask.value in s.tasks.Keys;
    } else if !a.Enqueue? {
      TaskSteps(s, a);
    } else if s.tasks == map[] {
      assert s'.tasks.Keys <= {s.nextTask};
    } else {
      assert s'.tasks == s.tasks;
    }
  }

  lemma TaskSteps(s: Sched, a: Action)
    requires OneOwner(s) && Enabled(s, a) && !a.Enqueue?
    ensures |Step(s, a).tasks.Keys| <= 1
  {
    if a.Begin? || a.Finish? { HandOverTasks(s, a); } else { FewerTasks(s, a); }
    hide *;
    AtMostOne(Step(s, a).tasks.Keys, s.nextTask);
    AtMostOne(Step(s, a).tasks.Keys, if s.currentTask.Some? then s.currentTask.value else s.nextTask);
  }

  lemma AtMostOne(keys: set<nat>, t: nat)
    ensures keys <= {t} ==> |keys| <= 1
  {
    if keys <= {t} && keys != {} { assert keys == {t}; }
  }

  /** Only a hand-over makes a task, after its own has gone. */
  lemma HandOverTasks(s: Sched, a: Action)
    requires OneOwner(s) && Enabled(s, a) && (a.Begin? || a.Finish?)
    ensures Step(s, a).tasks.Keys <= {s.currentTask.value} || Step(s, a).tasks.Keys <= {s.nextTask}
  {
    assert s.tasks.Keys == {s.currentTask.value};
    assert (s.tasks - {s.currentTask.value}).Keys == {};
  }

  lemma FewerTasks(s: Sched, a: Action)
    requires OneOwner(s) && Enabled(s, a) && !a.Enqueue? && !a.Begin? && !a.Finish?
    ensures Step(s, a).tasks.Keys <= if s.currentTask.Some? then {s.currentTask.value} else {}
  {
    hide KeepOut, BranchDrop, Cancellable, Elements;
    assert s.tasks.Keys <= if s.currentTask.Some? then {s.currentTask.value} else {};
    assert Step(s, a).tasks.Keys <= s.tasks.Keys;
  }

  /**
   * Cancelling the tree while its task is inside the processor, and enqueueing
   * a new node before that task has unwound, puts two tasks inside the
   * processor at once; when the first one finishes, the tree is marked free
   * under the second.
   */
  lemma CancelTreeOverlaps(s: Sched, t: nat, n: NodeId, raised: bool)
    requires Inv(s) && Enabled(s, Finish(t, raised)) && n !in s.states
    ensures var s1 := Step(CancelTreeStep(s), AddNode(n));
            var s2 := BeginStep(EnqueueStep(s1, n), s.nextTask);
            var s3 := FinishStep(s2, t, raised);
            && s2.tasks.Keys == {t, s.nextTask} && (forall u :: u in s2.tasks ==> s2.tasks[u].phase == RUNNING)
            && !s3.busy && s3.tasks == map[s.nextTask := Task(n, RUNNING)]
  {
    var s1 := Step(CancelTreeStep(s), AddNode(n));
    assert s1.tasks == s.tasks;
    assert EnqueueStep(s1, n).tasks == s.tasks[s.nextTask := Task(n, CREATED)];
  }

  // ----- How a node comes to fail -----

  /** What one step makes of the state of a node. */
  lemma StateAfter(s: Sched, a: Action, n: NodeId)
    requires Enabled(s, a) && n in s.states
    ensures var before := s.states[n];
            var cancellable := n in s.live && before in {PENDING, IN_PROGRESS};
            n in Step(s, a).states && Step(s, a).states[n] ==
              match a
              case SetState(m, state) => if m == n && n in s.live then state else before
              case Finish(t, raised) => if raised && s.tasks[t].node == n && n in s.live then ERROR else before
              case CancelNode(m) => if m == n && cancellable then ERROR else before
              case CancelBranch(branch) => if n in branch && cancellable then ERROR else before
              case CancelTree => if cancellable || (n in s.live && n in s.queue) then ERROR else before
              case _ => before
  {
  }

  /** This step fails the node: its call raises, it is cancelled, or it is set to ERROR. */
  predicate Fails(s: Sched, a: Action, n: NodeId) {
    n in s.live &&
      match a
      case SetState(m, state) => m == n && state == ERROR
      case Finish(t, raised) => raised && t in s.tasks && s.tasks[t].node == n
      case CancelNode(m) => m == n
      case CancelBranch(branch) => n in branch
      case CancelTree => true
      case _ => false
  }

  /** A node that has failed was made to fail by one of the steps; a call that returns fails nothing. */
  lemma {:induction false} FailedByCause(actions: seq<Action>, n: NodeId) returns (i: nat)
    requires EnabledRun(INIT, actions) && n in Perform(INIT, actions).states && Perform(INIT, actions).states[n] == ERROR
    ensures i < |actions| && EnabledRun(INIT, actions[..i]) && Fails(Perform(INIT, actions[..i]), actions[i], n)
    decreases |actions|
  {
    i := |actions| - 1;
    var before := actions[..i];
    LastStep(INIT, actions);
    var (s, a) := (Perform(INIT, before), actions[i]);
    hide EnabledRun, Perform;
    if !Fails(s, a, n) {
      LiveAreKnown(before);
      if n in s.states { StateAfter(s, a, n); } else { OnlyAddNodeAdds(s, a, n); }
      hide Fails, Enabled, Step;
      i := FailedByCause(before, n);
      assert before[..i] == actions[..i];
    }
  }

  lemma {:induction false} LiveAreKnown(actions: seq<Action>)
    requires EnabledRun(INIT, actions)
    ensures var s := Perform(INIT, actions); s.live <= s.states.Keys
    decreases |actions|
  {
    if actions != [] {
      var before := actions[..|actions| - 1];
      LastStep(INIT, actions);
      LiveAreKnown(before);
      var (s, a) := (Perform(INIT, before), actions[|actions| - 1]);
      hide EnabledRun, Perform;
      StepKnows(s, a);
    }
  }

  lemma StepKnows(s: Sched, a: Action)
    requires Enabled(s, a) && s.live <= s.states.Keys
    ensures Step(s, a).live <= Step(s, a).states.Keys
  {
  }

  lemma OnlyAddNodeAdds(s: Sched, a: Action, n: NodeId)
    requires Enabled(s, a) && n in Step(s, a).states && n !in s.states && s.live <= s.states.Keys
    ensures a == AddNode(n) && Step(s, a).states[n] == PENDING
  {
  }

  lemma {:induction false} LastStep(s: Sched, actions: seq<Action>)
    requires EnabledRun(s, actions) && actions != []
    ensures var (before, a) := (actions[..|actions| - 1], actions[|actions| - 1]);
            && EnabledRun(s, before) && Enabled(Perform(s, before), a)
            && Perform(s, actions) == Step(Perform(s, before), a)
    decreases |actions|
  {
    hide Step, Enabled;
    var before := actions[..|actions| - 1];
    if |actions| > 1 {
      LastStep(Step(s, actions[0]), actions[1..]);
      assert actions[1..][..|actions| - 2] == before[1..];
    }
  }

  // ----- A run to each failure -----

  lemma {:induction false} PerformOneMore(s: Sched, actions: seq<Action>, a: Action)
    requires EnabledRun(s, actions) && Enabled(Perform(s, actions), a)
    ensures EnabledRun(s, actions + [a]) && Perform(s, actions + [a]) == Step(Perform(s, actions), a)
    decreases |actions|
  {
    if actions == [] {
      assert [] + [a] == [a];
    } else {
      hide Step, Enabled;
      PerformOneMore(Step(s, actions[0]), actions[1..], a);
      assert (actions + [a])[1..] == actions[1..] + [a] && (actions + [a])[0] == actions[0];
    }
  }

  /** The first node is being processed and a reply to it has been added. */
  const PROCESSING := [AddNode(0), Enqueue(0), Begin(0), AddNode(1)]

  lemma ProcessingRun()
    ensures EnabledRun(INIT, PROCESSING)
    ensures Perform(INIT, PROCESSING) ==
              INIT.(busy := true, current := Some(0), currentTask := Some(0), tasks := map[0 := Task(0, RUNNING)], nextTask := 1,
                    live := {0, 1}, states := map[0 := PENDING, 1 := PENDING], enqueued := [0], started := [0])
  {
    PerformOneMore(INIT, [], AddNode(0));
    PerformOneMore(INIT, [AddNode(0)], Enqueue(0));
    PerformOneMore(INIT, [AddNode(0), Enqueue(0)], Begin(0));
    PerformOneMore(INIT, [AddNode(0), Enqueue(0), Begin(0)], AddNode(1));
  }

  /** A message that is cancelled at once, before its task has run, leaves its tree busy for good. */
  lemma CancelledAtOnce()
    ensures EnabledRun(INIT, [AddNode(0), Enqueue(0), CancelNode(0)])
    ensures Stuck(Perform(INIT, [AddNode(0), Enqueue(0), CancelNode(0)]))
  {
    PerformOneMore(INIT, [], AddNode(0));
    PerformOneMore(INIT, [AddNode(0)], Enqueue(0));
    PerformOneMore(INIT, [AddNode(0), Enqueue(0)], CancelNode(0));
  }

  /** A queued reply fails with its parent and then its branch is cleared: the dead id sticks the tree. */
  lemma ClearedAfterFailure()
    ensures var run := PROCESSING + [Enqueue(1), SetState(1, ERROR), CancelBranch({1}), RemoveBranch({1}), Finish(0, false)];
            EnabledRun(INIT, run) && Stuck(Perform(INIT, run))
  {
    ProcessingRun();
    hide EnabledRun, Perform;
    var run1 := PROCESSING + [Enqueue(1)];
    PerformOneMore(INIT, PROCESSING, Enqueue(1));
    var run2 := run1 + [SetState(1, ERROR)];
    PerformOneMore(INIT, run1, SetState(1, ERROR));
    var run3 := run2 + [CancelBranch({1})];
    PerformOneMore(INIT, run2, CancelBranch({1}));
    assert Perform(INIT, run3).queue == [1] by { KeepOutNothing([1], {}); }
    var run4 := run3 + [RemoveBranch({1})];
    PerformOneMore(INIT, run3, RemoveBranch({1}));
    PerformOneMore(INIT, run4, Finish(0, false));
    assert run4 + [Finish(0, false)]
        == PROCESSING + [Enqueue(1), SetState(1, ERROR), CancelBranch({1}), RemoveBranch({1}), Finish(0, false)];
  }

  /** A reply that comes to a branch between its cancellation and its removal is queued, and removed there: the tree sticks. */
  lemma QueuedBeforeRemoval()
    ensures var run := PROCESSING + [CancelBranch({1}), AddNode(2), Enqueue(2), RemoveBranch({1, 2}), Finish(0, false)];
            EnabledRun(INIT, run) && Stuck(Perform(INIT, run))
  {
    ProcessingRun();
    hide EnabledRun, Perform;
    var run1 := PROCESSING + [CancelBranch({1})];
    PerformOneMore(INIT, PROCESSING, CancelBranch({1}));
    assert Perform(INIT, run1).queue == [];
    var run2 := run1 + [AddNode(2)];
    PerformOneMore(INIT, run1, AddNode(2));
    var run3 := run2 + [Enqueue(2)];
    PerformOneMore(INIT, run2, Enqueue(2));
    var run4 := run3 + [RemoveBranch({1, 2})];
    PerformOneMore(INIT, run3, RemoveBranch({1, 2}));
    PerformOneMore(INIT, run4, Finish(0, false));
    assert run4 + [Finish(0, false)]
        == PROCESSING + [CancelBranch({1}), AddNode(2), Enqueue(2), RemoveBranch({1, 2}), Finish(0, false)];
  }

  /** A reply that is enqueued after it was removed sticks the tree as well. */
  lemma EnqueuedAfterRemoval()
    ensures var run := PROCESSING + [RemoveBranch({1}), Enqueue(1), Finish(0, false)];
            EnabledRun(INIT, run) && Stuck(Perform(INIT, run))
  {
    ProcessingRun();
    hide EnabledRun, Perform;
    var run1 := PROCESSING + [RemoveBranch({1})];
    PerformOneMore(INIT, PROCESSING, RemoveBranch({1}));
    var run2 := run1 + [Enqueue(1)];
    PerformOneMore(INIT, run1, Enqueue(1));
    PerformOneMore(INIT, run2, Finish(0, false));
    assert run2 + [Finish(0, false)] == PROCESSING + [RemoveBranch({1}), Enqueue(1), Finish(0, false)];
  }

  /** A reply that is enqueued twice is processed twice, and cannot be cancelled in between. */
  lemma EnqueuedTwice()
    ensures var run := PROCESSING + [Enqueue(1), Enqueue(1), Finish(0, false)];
            EnabledRun(INIT, run) &&
            var s := Perform(INIT, run);
            s.queue == [1] && s.index == {} && s.started == [0, 1] && ProcessNext(s).started == [0, 1, 1]
  {
    ProcessingRun();
    hide EnabledRun, Perform;
    var run1 := PROCESSING + [Enqueue(1)];
    PerformOneMore(INIT, PROCESSING, Enqueue(1));
    var run2 := run1 + [Enqueue(1)];
    PerformOneMore(INIT, run1, Enqueue(1));
    PerformOneMore(INIT, run2, Finish(0, false));
    assert run2 + [Finish(0, false)] == PROCESSING + [Enqueue(1), Enqueue(1), Finish(0, false)];
  }

  /** A message that comes right after its tree was cancelled runs beside the cancelled one. */
  lemma EnqueuedWhileUnwinding()
    ensures var run := PROCESSING + [CancelTree, AddNode(2), Enqueue(2), Begin(1)];
            EnabledRun(INIT, run) && Perform(INIT, run).tasks == map[0 := Task(0, RUNNING), 1 := Task(2, RUNNING)]
  {
    ProcessingRun();
    hide EnabledRun, Perform;
    var run1 := PROCESSING + [CancelTree];
    PerformOneMore(INIT, PROCESSING, CancelTree);
    var run2 := run1 + [AddNode(2)];
    PerformOneMore(INIT, run1, AddNode(2));
    var run3 := run2 + [Enqueue(2)];
    PerformOneMore(INIT, run2, Enqueue(2));
    PerformOneMore(INIT, run3, Begin(1));
    assert run3 + [Begin(1)] == PROCESSING + [CancelTree, AddNode(2), Enqueue(2), Begin(1)];
  }
}
