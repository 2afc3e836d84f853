/**
 * The tree of messages: adding nodes, walking and removing branches, and
 * propagating errors (messaging/trees/data.py, messaging/trees/repository.py,
 * messaging/trees/queue_manager.py). Node objects are values in the dictionary.
 */
module TreeData {
  import opened Text
  import opened TreeQueue
  import opened TreeQueueProofs

  type StatusId = nat

  datatype MessageNode = MessageNode(
    nodeId: NodeId,
    status: StatusId,
    state: MessageState,
    parent: Option<NodeId>,
    children: seq<NodeId>)

  type Nodes = map<NodeId, MessageNode>

  // ----- Well-formed trees -----

  /** Every node has a rank below its children's, so the tree is acyclic. */
  ghost predicate Ranked(nodes: Nodes, rank: map<NodeId, nat>) {
    && nodes.Keys <= rank.Keys
    && forall n :: n in nodes && nodes[n].parent.Some? && nodes[n].parent.value in nodes ==>
         rank[nodes[n].parent.value] < rank[n]
  }

  ghost predicate ChildOf(nodes: Nodes, c: NodeId, n: NodeId) {
    c in nodes && nodes[c].parent == Some(n)
  }

  ghost predicate WellFormed(nodes: Nodes, root: NodeId, rank: map<NodeId, nat>) {
    && root in nodes && nodes[root].parent == None
    && (forall n :: n in nodes ==> nodes[n].nodeId == n)
    && (forall n :: n in nodes && n != root ==> nodes[n].parent.Some? && nodes[n].parent.value in nodes)
    && (forall n :: n in nodes ==> Distinct(nodes[n].children))
    && (forall n, c :: n in nodes ==> (c in nodes[n].children <==> ChildOf(nodes, c, n)))
    && Ranked(nodes, rank)
  }

  /** The status index holds exactly the status ids of the nodes. */
  ghost predicate IndexMatches(nodes: Nodes, statusToNode: map<StatusId, NodeId>) {
    && (forall n :: n in nodes ==> nodes[n].status in statusToNode && statusToNode[nodes[n].status] == n)
    && (forall s :: s in statusToNode ==> statusToNode[s] in nodes && nodes[statusToNode[s]].status == s)
  }

  // ----- Nodes below a node -----

  /** Reached from a by children that pass `take`. */
  ghost predicate Reached(nodes: Nodes, rank: map<NodeId, nat>, take: set<NodeId>, a: NodeId, x: NodeId)
    requires Ranked(nodes, rank)
    decreases if x in rank then rank[x] else 0
  {
    x in nodes && (x == a ||
                   (x in take && nodes[x].parent.Some? && nodes[x].parent.value in nodes
                    && Reached(nodes, rank, take, a, nodes[x].parent.value)))
  }

  /** x is a or lies below a: following parents from x leads to a. */
  ghost predicate IsBelow(nodes: Nodes, rank: map<NodeId, nat>, a: NodeId, x: NodeId)
    requires Ranked(nodes, rank)
  {
    Reached(nodes, rank, nodes.Keys, a, x)
  }

  ghost function Branch(nodes: Nodes, rank: map<NodeId, nat>, a: NodeId): set<NodeId>
    requires Ranked(nodes, rank)
  {
    set x | x in nodes && IsBelow(nodes, rank, a, x)
  }

  /** A path from x up to a: each node on it is a child of the next, and all but the last pass `take`. */
  ghost predicate PathUp(nodes: Nodes, take: set<NodeId>, a: NodeId, x: NodeId, path: seq<NodeId>)
    decreases |path|
  {
    && path != [] && path[0] == x && x in nodes
    && if |path| == 1 then x == a
       else x in take && nodes[x].parent == Some(path[1]) && PathUp(nodes, take, a, path[1], path[1..])
  }

  lemma {:induction false} PathReaches(nodes: Nodes, rank: map<NodeId, nat>, take: set<NodeId>, a: NodeId, x: NodeId, path: seq<NodeId>)
    requires Ranked(nodes, rank) && PathUp(nodes, take, a, x, path)
    ensures Reached(nodes, rank, take, a, x)
    decreases |path|
  {
    if |path| > 1 { PathReaches(nodes, rank, take, a, path[1], path[1..]); }
  }

  lemma {:induction false} ReachedHasPath(nodes: Nodes, rank: map<NodeId, nat>, take: set<NodeId>, a: NodeId, x: NodeId)
      returns (path: seq<NodeId>)
    requires Ranked(nodes, rank) && Reached(nodes, rank, take, a, x)
    ensures PathUp(nodes, take, a, x, path)
    decreases rank[x]
  {
    if x == a { return [x]; }
    var rest := ReachedHasPath(nodes, rank, take, a, nodes[x].parent.value);
    path := [x] + rest;
    assert path[1..] == rest;
  }

  ghost predicate HasPathUp(nodes: Nodes, take: set<NodeId>, a: NodeId, x: NodeId) {
    exists path :: PathUp(nodes, take, a, x, path)
  }

  /** Reached is reached along a path of parents. */
  lemma ReachedAlongPath(nodes: Nodes, rank: map<NodeId, nat>, take: set<NodeId>, a: NodeId, x: NodeId)
    requires Ranked(nodes, rank)
    ensures Reached(nodes, rank, take, a, x) <==> HasPathUp(nodes, take, a, x)
  {
    if Reached(nodes, rank, take, a, x) {
      var path := ReachedHasPath(nodes, rank, take, a, x);
      assert HasPathUp(nodes, take, a, x);
    } else if HasPathUp(nodes, take, a, x) {
      var path :| PathUp(nodes, take, a, x, path);
      PathReaches(nodes, rank, take, a, x, path);
    }
  }

  /** Every node of a well-formed tree lies below the root. */
  lemma {:induction false} AllBelowRoot(nodes: Nodes, root: NodeId, rank: map<NodeId, nat>, x: NodeId)
    requires WellFormed(nodes, root, rank) && x in nodes
    ensures IsBelow(nodes, rank, root, x)
    decreases rank[x]
  {
    if x != root { AllBelowRoot(nodes, root, rank, nodes[x].parent.value); }
  }

  // ----- Walking with a stack -----

  /**
   * The state of a walk from `from` over the nodes that pass `take`: what has
   * been visited or stacked is distinct, was reached from a visited node, and
   * holds every passing child of a visited node.
   */
  ghost predicate Walk(nodes: Nodes, from: NodeId, take: set<NodeId>, visited: seq<NodeId>, stack: seq<NodeId>) {
    var seen := visited + stack;
    && Distinct(seen) && from in seen
    && (forall x :: x in seen && x != from ==>
          x in take && x in nodes && nodes[x].parent.Some? && nodes[x].parent.value in visited)
    && (forall n, c :: n in visited && n in nodes && c in take && ChildOf(nodes, c, n) ==> c in seen)
  }

  lemma {:induction false} SeenIsReached(nodes: Nodes, rank: map<NodeId, nat>, from: NodeId, take: set<NodeId>,
                                         visited: seq<NodeId>, stack: seq<NodeId>, x: NodeId)
    requires Ranked(nodes, rank) && from in nodes && Walk(nodes, from, take, visited, stack)
    requires x in visited + stack && forall y :: y in visited ==> y in nodes
    ensures Reached(nodes, rank, take, from, x)
    decreases rank[x]
  {
    if x != from {
      var p := nodes[x].parent.value;
      assert p in visited + stack;
      SeenIsReached(nodes, rank, from, take, visited, stack, p);
    }
  }

  lemma {:induction false} ReachedIsSeen(nodes: Nodes, rank: map<NodeId, nat>, from: NodeId, take: set<NodeId>,
                                         visited: seq<NodeId>, x: NodeId)
    requires Ranked(nodes, rank) && Walk(nodes, from, take, visited, []) && Reached(nodes, rank, take, from, x)
    ensures x in visited
    decreases rank[x]
  {
    assert visited + [] == visited;
    if x != from {
      var p := nodes[x].parent.value;
      ReachedIsSeen(nodes, rank, from, take, visited, p);
      assert ChildOf(nodes, x, p);
    }
  }

  lemma {:induction false} ReachedHasRank(nodes: Nodes, rank: map<NodeId, nat>, take: set<NodeId>, a: NodeId, x: NodeId)
    requires Ranked(nodes, rank) && Reached(nodes, rank, take, a, x)
    ensures a in nodes && rank[a] <= rank[x]
    decreases rank[x]
  {
    if x != a { ReachedHasRank(nodes, rank, take, a, nodes[x].parent.value); }
  }

  /** Popping a node and stacking its passing children, in their order, keeps the walk. */
  lemma WalkStep(nodes: Nodes, root: NodeId, rank: map<NodeId, nat>, from: NodeId, take: set<NodeId>,
                 visited: seq<NodeId>, stack: seq<NodeId>, kids: seq<NodeId>)
    requires WellFormed(nodes, root, rank) && from in nodes
    requires Walk(nodes, from, take, visited, stack) && stack != []
    requires forall y :: y in visited + stack ==> y in nodes
    requires Distinct(kids) && forall c :: c in kids <==> c in nodes[stack[|stack| - 1]].children && c in take
    ensures Walk(nodes, from, take, visited + [stack[|stack| - 1]], stack[..|stack| - 1] + kids)
    ensures forall y :: y in kids ==> y in nodes
  {
    var m := |stack| - 1;
    var n := stack[m];
    assert n in visited + stack;
    NewKids(nodes, root, rank, from, take, visited, stack, kids);
    DistinctMove(visited, stack, kids);
    MovedElements(visited, stack, kids);
    VisitedNext(visited, n);
    hide Distinct, WellFormed;
    forall x, c | x in visited + [n] && x in nodes && c in take && ChildOf(nodes, c, x)
      ensures c in visited + [n] + (stack[..m] + kids)
    {
      if x == n { ChildListed(nodes, root, rank, c, n); }
    }
  }

  lemma VisitedNext(visited: seq<NodeId>, n: NodeId)
    ensures forall x :: x in visited + [n] <==> x in visited || x == n
  {
  }

  lemma ChildListed(nodes: Nodes, root: NodeId, rank: map<NodeId, nat>, c: NodeId, n: NodeId)
    requires WellFormed(nodes, root, rank) && n in nodes
    ensures c in nodes[n].children <==> ChildOf(nodes, c, n)
  {
  }

  /** The children of the popped node have not been seen: their only parent was not visited, and none is the start. */
  lemma NewKids(nodes: Nodes, root: NodeId, rank: map<NodeId, nat>, from: NodeId, take: set<NodeId>,
                visited: seq<NodeId>, stack: seq<NodeId>, kids: seq<NodeId>)
    requires WellFormed(nodes, root, rank) && from in nodes
    requires Walk(nodes, from, take, visited, stack) && stack != []
    requires forall y :: y in visited + stack ==> y in nodes
    requires forall c :: c in kids <==> c in nodes[stack[|stack| - 1]].children && c in take
    ensures forall c :: c in kids ==> c !in visited + stack && c != from && ChildOf(nodes, c, stack[|stack| - 1])
  {
    var m := |stack| - 1;
    var n := stack[m];
    var seen := visited + stack;
    assert seen[|visited| + m] == n;
    SeenIsReached(nodes, rank, from, take, visited, stack, n);
    ReachedHasRank(nodes, rank, take, from, n);
    assert n !in visited by {
      assert forall i :: 0 <= i < |visited| ==> seen[i] == visited[i];
    }
    forall c | c in kids
      ensures c !in seen && c != from && ChildOf(nodes, c, n)
    {
      ChildListed(nodes, root, rank, c, n);
    }
  }

  lemma DistinctMove(visited: seq<NodeId>, stack: seq<NodeId>, kids: seq<NodeId>)
    requires stack != [] && Distinct(visited + stack) && Distinct(kids)
    requires forall c :: c in kids ==> c !in visited + stack
    ensures Distinct(visited + [stack[|stack| - 1]] + (stack[..|stack| - 1] + kids))
  {
    var m := |stack| - 1;
    var moved := visited + [stack[m]] + stack[..m];
    assert stack == stack[..m] + [stack[m]];
    hide Distinct;
    LastToFront(visited, stack[..m], stack[m]);
    DistinctJoin(moved, kids);
    assert moved + kids == visited + [stack[m]] + (stack[..m] + kids);
  }

  lemma LastToFront(a: seq<NodeId>, b: seq<NodeId>, n: NodeId)
    requires Distinct(a + (b + [n]))
    ensures Distinct(a + [n] + b)
  {
    var (before, after) := (a + (b + [n]), a + [n] + b);
    assert forall i :: 0 <= i < |a| ==> before[i] == after[i];
    assert forall i :: 0 <= i < |b| ==> before[|a| + i] == b[i] == after[|a| + 1 + i];
    assert before[|a| + |b|] == after[|a|] == n;
  }

  /** A walk never visits more nodes than the tree has. */
  lemma WalkIsShort(nodes: Nodes, seen: seq<NodeId>)
    requires Distinct(seen) && forall x :: x in seen ==> x in nodes
    ensures |seen| <= |nodes|
  {
    DistinctSize(seen);
    assert Elements(seen) <= nodes.Keys;
    SubsetSize(Elements(seen), nodes.Keys);
  }

  lemma {:induction false} DistinctSize(q: seq<NodeId>)
    requires Distinct(q)
    ensures |Elements(q)| == |q|
  {
    if q == [] {
      assert Elements(q) == {};
    } else {
      var k := |q| - 1;
      DistinctSize(q[..k]);
      assert q == q[..k] + [q[k]];
      assert Elements(q) == Elements(q[..k]) + {q[k]};
    }
  }

  lemma {:induction false} SubsetSize(a: set<NodeId>, b: set<NodeId>)
    requires a <= b
    ensures |a| <= |b|
  {
    if a != {} {
      var x :| x in a;
      SubsetSize(a - {x}, b - {x});
    }
  }

  // ----- The tree -----

  /** The ids of q that are in `take`, in order. */
  function KeepIn(q: seq<NodeId>, take: set<NodeId>): seq<NodeId> {
    if q == [] then []
    else (if q[0] in take then [q[0]] else []) + KeepIn(q[1..], take)
  }

  lemma {:induction false} KeepInElements(q: seq<NodeId>, take: set<NodeId>)
    ensures forall c :: c in KeepIn(q, take) <==> c in q && c in take
    ensures Distinct(q) ==> Distinct(KeepIn(q, take))
  {
    if q != [] {
      KeepInElements(q[1..], take);
      var rest := KeepIn(q[1..], take);
      assert forall c :: c in q <==> c == q[0] || c in q[1..];
      if q[0] in take && Distinct(q) {
        assert q[0] !in q[1..];
        assert forall i :: 0 <= i < |rest| ==> rest[i] in rest;
      }
    }
  }

  lemma {:induction false} KeepInAppend(q: seq<NodeId>, c: NodeId, take: set<NodeId>)
    ensures KeepIn(q + [c], take) == KeepIn(q, take) + if c in take then [c] else []
  {
    if q == [] {
    } else {
      KeepInAppend(q[1..], c, take);
      assert (q + [c])[1..] == q[1..] + [c] && (q + [c])[0] == q[0];
      assert KeepIn(q + [c], take) == (if q[0] in take then [q[0]] else []) + KeepIn(q[1..] + [c], take);
    }
  }

  ghost function PendingSet(nodes: Nodes): set<NodeId> {
    set n | n in nodes && nodes[n].state == PENDING
  }

  function WithState(nodes: Nodes, n: NodeId, state: MessageState): Nodes {
    if n in nodes then nodes[n := nodes[n].(state := state)] else nodes
  }

  /** The tree with a pending node n made below the parent. */
  function WithChild(nodes: Nodes, n: NodeId, status: StatusId, parent: NodeId): Nodes
    requires parent in nodes
  {
    var more := nodes[n := MessageNode(n, status, PENDING, Some(parent), [])];
    more[parent := more[parent].(children := more[parent].children + [n])]
  }

  /** The tree with the nodes of a set marked as failed. */
  function FailAll(nodes: Nodes, failed: set<NodeId>): Nodes {
    map n | n in nodes :: if n in failed then nodes[n].(state := ERROR) else nodes[n]
  }

  /** The tree without the nodes of a branch, and without its root among the children of that root's parent. */
  function Prune(nodes: Nodes, branch: set<NodeId>, b: NodeId): Nodes {
    map n | n in nodes && n !in branch ::
      if nodes[n].nodeId == n && b in nodes[n].children
      then nodes[n].(children := KeepOut(nodes[n].children, {b})) else nodes[n]
  }

  class MessageTree {
    const rootId: NodeId
    var nodes: Nodes
    var statusToNode: map<StatusId, NodeId>
    ghost var rank: map<NodeId, nat>

    ghost predicate Valid()
      reads this
    {
      WellFormed(nodes, rootId, rank) && IndexMatches(nodes, statusToNode)
    }

    constructor (root: NodeId, status: StatusId)
      ensures Valid() && rootId == root && nodes == map[root := MessageNode(root, status, PENDING, None, [])]
    {
      rootId := root;
      nodes := map[root := MessageNode(root, status, PENDING, None, [])];
      statusToNode := map[status := root];
      rank := map[root := 0];
    }

    /**
     * Adds a pending child; a parent that is not in the tree is an error. The
     * result is a tree exactly when neither id is in use.
     */
    method AddNode(n: NodeId, status: StatusId, parent: NodeId) returns (node: Option<MessageNode>)
      requires Valid()
      modifies this
      ensures Valid() <==> parent !in old(nodes) || (n !in old(nodes) && status !in old(statusToNode))
      ensures parent !in old(nodes) ==> node == None && nodes == old(nodes) && statusToNode == old(statusToNode)
      ensures parent in old(nodes) ==>
                && node == Some(MessageNode(n, status, PENDING, Some(parent), []))
                && statusToNode == old(statusToNode)[status := n]
                && nodes == WithChild(old(nodes), n, status, parent)
                && nodes.Keys == old(nodes).Keys + {n}
                && (n != parent ==>
                      && nodes[n] == MessageNode(n, status, PENDING, Some(parent), [])
                      && nodes[parent] == old(nodes)[parent].(children := old(nodes)[parent].children + [n]))
                && forall x :: x in old(nodes) && x != n && x != parent ==> nodes[x] == old(nodes)[x]
    {
      node := None;
      hide WellFormed, IndexMatches;
      if parent in nodes {
        ghost var before := nodes;
        ParentRanked(nodes, rootId, rank, parent);
        var added := MessageNode(n, status, PENDING, Some(parent), []);
        nodes := nodes[n := added];
        statusToNode := statusToNode[status := n];
        nodes := nodes[parent := nodes[parent].(children := nodes[parent].children + [n])];
        rank := rank[n := rank[parent] + 1];
        ChildAddedExactly(before, rootId, old(rank), old(statusToNode), n, status, parent);
        node := Some(added);
      }
    }

    /** Sets a node's state; an unknown node is ignored. */
    method UpdateState(n: NodeId, state: MessageState)
      modifies this`nodes
      ensures nodes == WithState(old(nodes), n, state)
      ensures n in old(nodes) ==> nodes == old(nodes)[n := old(nodes)[n].(state := state)]
      ensures n !in old(nodes) ==> nodes == old(nodes)
    {
      if n !in nodes {
        return;
      }
      nodes := nodes[n := nodes[n].(state := state)];
    }

    /** The node and everything below it, each once. */
    method GetDescendants(n: NodeId) returns (result: seq<NodeId>)
      requires Valid()
      ensures Distinct(result) && (n !in nodes ==> result == [])
      ensures n in nodes ==> forall x :: x in result <==> x in nodes && IsBelow(nodes, rank, n, x)
    {
      if n !in nodes {
        return [];
      }
      result := [];
      var stack := [n];
      while stack != []
        invariant Walk(nodes, n, nodes.Keys, result, stack)
        invariant forall y :: y in result + stack ==> y in nodes
        decreases |nodes| - |result|
      {
        var top := |stack| - 1;
        var nid := stack[top];
        ghost var visited, before := result, stack;
        assert nid in result + stack;
        stack := stack[..top];
        result := result + [nid];
        StepFits(nodes, visited, before);
        if nid in nodes {
          WalkStep(nodes, rootId, rank, n, nodes.Keys, visited, before, nodes[nid].children);
          stack := stack + nodes[nid].children;
        }
      }
      assert result + [] == result;
      forall x | x in nodes
        ensures x in result <==> IsBelow(nodes, rank, n, x)
      {
        if x in result { SeenIsReached(nodes, rank, n, nodes.Keys, result, [], x); }
        if IsBelow(nodes, rank, n, x) { ReachedIsSeen(nodes, rank, n, nodes.Keys, result, x); }
      }
    }

    /** Notes and stacks the pending ones among the children. */
    method PushPending(children: seq<NodeId>, pending: seq<NodeId>, stack: seq<NodeId>)
      returns (pending': seq<NodeId>, stack': seq<NodeId>)
      ensures pending' == pending + KeepIn(children, PendingSet(nodes))
      ensures stack' == stack + KeepIn(children, PendingSet(nodes))
    {
      pending', stack' := pending, stack;
      assert children[..0] == [];
      for k := 0 to |children|
        invariant pending' == pending + KeepIn(children[..k], PendingSet(nodes))
        invariant stack' == stack + KeepIn(children[..k], PendingSet(nodes))
      {
        assert children[..k + 1] == children[..k] + [children[k]];
        KeepInAppend(children[..k], children[k], PendingSet(nodes));
        if children[k] in nodes && nodes[children[k]].state == PENDING {
          pending' := pending' + [children[k]];
          stack' := stack' + [children[k]];
        }
      }
      assert children[..|children|] == children;
    }

    /** The pending nodes below n on all-pending paths, each once. */
    method GetPendingChildren(n: NodeId) returns (pending: seq<NodeId>)
      requires Valid()
      ensures Distinct(pending) && (n !in nodes ==> pending == [])
      ensures n in nodes ==> forall x ::
                x in pending <==> x != n && x in nodes && Reached(nodes, rank, PendingSet(nodes), n, x)
    {
      pending := [];
      if n !in nodes {
        return;
      }
      var stack := [n];
      ghost var visited: seq<NodeId> := [];
      ghost var take := PendingSet(nodes);
      while stack != []
        invariant Walk(nodes, n, take, visited, stack)
        invariant forall y :: y in visited + stack ==> y in nodes
        invariant Distinct(pending) && forall x :: x in pending <==> x in visited + stack && x != n
        decreases |nodes| - |visited|
      {
        var top := |stack| - 1;
        var current := stack[top];
        assert current in visited + stack;
        ghost var before, earlier := stack, pending;
        hide Walk, Distinct, WellFormed, IndexMatches;
        stack := stack[..top];
        StepFits(nodes, visited, before);
        PendingStep(nodes, rootId, rank, n, visited, before, earlier);
        pending, stack := PushPending(nodes[current].children, pending, stack);
        visited := visited + [current];
      }
      assert visited + [] == visited;
      forall x | x in nodes
        ensures x in visited <==> Reached(nodes, rank, take, n, x)
      {
        if x in visited { SeenIsReached(nodes, rank, n, take, visited, [], x); }
        if Reached(nodes, rank, take, n, x) { ReachedIsSeen(nodes, rank, n, take, visited, x); }
      }
    }

    /** Marks a node as failed and, if asked, its pending descendants; returns those marked. */
    method MarkNodeError(n: NodeId, propagate: bool) returns (affected: seq<NodeId>)
      requires Valid()
      modifies this`nodes
      ensures Valid()
      ensures n !in old(nodes) ==> affected == [] && nodes == old(nodes)
      ensures n in old(nodes) ==>
                var marked := Affected(old(nodes), rank, n, propagate);
                nodes == FailAll(old(nodes), marked) && Distinct(affected) && Elements(affected) == marked
    {
      affected := [];
      if n !in nodes {
        return;
      }
      ghost var before := nodes;
      WithStateWellFormed(nodes, rootId, rank, statusToNode, n, ERROR);
      hide WellFormed, IndexMatches, Reached, PendingSet, Distinct, FailAll, Affected;
      UpdateState(n, ERROR);
      affected := [n];
      if propagate {
        var pending := GetPendingChildren(n);
        FailBelow(before, rootId, rank, n, pending);
        FailEach(pending);
        affected := affected + pending;
      } else {
        FailOnly(before, rank, n);
      }
    }

    method FailEach(ids: seq<NodeId>)
      requires Valid()
      modifies this`nodes
      ensures Valid() && nodes == FailAll(old(nodes), Elements(ids))
    {
      hide WellFormed, IndexMatches;
      ghost var before := nodes;
      assert FailAll(before, Elements(ids[..0])) == before;
      for k := 0 to |ids|
        invariant Valid() && nodes == FailAll(before, Elements(ids[..k]))
      {
        WithStateWellFormed(nodes, rootId, rank, statusToNode, ids[k], ERROR);
        assert ids[..k + 1] == ids[..k] + [ids[k]];
        FailOneMore(before, ids[..k], ids[k]);
        UpdateState(ids[k], ERROR);
      }
      assert ids[..|ids|] == ids;
    }

    /** Takes the nodes out of both dictionaries, one by one. */
    method DeleteNodes(ids: seq<NodeId>) returns (removed: seq<MessageNode>)
      requires IndexMatches(nodes, statusToNode) && Distinct(ids)
      modifies this`nodes, this`statusToNode
      ensures nodes == old(nodes) - Elements(ids) && IndexMatches(nodes, statusToNode)
      ensures forall x :: x in ids && x in old(nodes) ==> old(nodes)[x] in removed
      ensures forall r :: r in removed ==> exists x :: x in ids && x in old(nodes) && r == old(nodes)[x]
      ensures (forall x :: x in ids ==> x in old(nodes)) ==> |removed| == |ids|
    {
      hide IndexMatches;
      ghost var before := nodes;
      removed := [];
      assert before - Elements(ids[..0]) == before;
      for k := 0 to |ids|
        invariant nodes == before - Elements(ids[..k]) && IndexMatches(nodes, statusToNode)
        invariant forall x :: x in ids[..k] && x in before ==> before[x] in removed
        invariant forall r :: r in removed ==> exists x :: x in ids && x in before && r == before[x]
        invariant (forall x :: x in ids ==> x in before) ==> |removed| == k
      {
        var nid := ids[k];
        assert nid in ids && nid !in ids[..k];
        assert ids[..k + 1] == ids[..k] + [nid];
        assert before - Elements(ids[..k + 1]) == before - Elements(ids[..k]) - {nid};
        assert nid in nodes <==> nid in before;
        if nid in nodes {
          IndexWithout(nodes, statusToNode, nid);
          removed := removed + [nodes[nid]];
          statusToNode := statusToNode - {nodes[nid].status};
          nodes := nodes - {nid};
        } else {
          assert nodes - {nid} == nodes;
        }
      }
      assert ids[..|ids|] == ids;
    }

    /** Removes a node and everything below it; returns the removed nodes. */
    method RemoveBranch(b: NodeId) returns (removed: seq<MessageNode>)
      requires Valid()
      modifies this
      ensures rank == old(rank)
      ensures b !in old(nodes) ==> removed == [] && nodes == old(nodes) && statusToNode == old(statusToNode)
      ensures b in old(nodes) ==>
                var gone := Branch(old(nodes), rank, b);
                && nodes == Prune(old(nodes), gone, b)
                && IndexMatches(nodes, statusToNode)
                && |removed| == |gone| && (forall x :: x in gone ==> old(nodes)[x] in removed)
                && (forall r :: r in removed ==> exists x :: x in gone && r == old(nodes)[x])
      ensures b != rootId ==> Valid()
    {
      if b !in nodes {
        return [];
      }
      ghost var before := nodes;
      ghost var gone := Branch(nodes, rank, b);
      var parent := if nodes[b].parent.Some? && nodes[b].parent.value in nodes then nodes[b].parent else None;
      var ids := GetDescendants(b);
      assert Elements(ids) == gone;
      DistinctSize(ids);
      hide WellFormed, IndexMatches, Prune, Distinct;
      removed := DeleteNodes(ids);
      if parent.Some? && parent.value in nodes && b in nodes[parent.value].children {
        var p := parent.value;
        nodes := nodes[p := nodes[p].(children := KeepOut(nodes[p].children, {b}))];
      }
      PruneIs(before, rootId, rank, b, nodes);
      IndexPruned(before, gone, b, statusToNode);
      if b != rootId { PruneWellFormed(before, rootId, rank, b); }
    }
  }

  /** Only the branch root's parent lists it, so only that list changes. */
  lemma PruneIs(nodes: Nodes, root: NodeId, rank: map<NodeId, nat>, b: NodeId, after: Nodes)
    requires WellFormed(nodes, root, rank) && b in nodes
    requires var rest := nodes - Branch(nodes, rank, b);
             var p := nodes[b].parent;
             after == if p.Some? && p.value in rest && b in rest[p.value].children
                      then rest[p.value := rest[p.value].(children := KeepOut(rest[p.value].children, {b}))] else rest
    ensures after == Prune(nodes, Branch(nodes, rank, b), b)
  {
    forall n | n in nodes
      ensures b in nodes[n].children <==> nodes[b].parent == Some(n)
    {
      ChildListed(nodes, root, rank, b, n);
    }
  }

  // ----- Propagating errors -----

  /** A failed node and all pending nodes below it on all-pending paths. */
  ghost function Affected(nodes: Nodes, rank: map<NodeId, nat>, n: NodeId, propagate: bool): set<NodeId>
    requires Ranked(nodes, rank)
  {
    set x | x in nodes && (x == n || (propagate && Reached(nodes, rank, PendingSet(nodes), n, x)))
  }

  lemma WithStateWellFormed(nodes: Nodes, root: NodeId, rank: map<NodeId, nat>, statusToNode: map<StatusId, NodeId>,
                            n: NodeId, state: MessageState)
    requires WellFormed(nodes, root, rank) && IndexMatches(nodes, statusToNode)
    ensures WellFormed(WithState(nodes, n, state), root, rank) && IndexMatches(WithState(nodes, n, state), statusToNode)
  {
    var after := WithState(nodes, n, state);
    assert forall x, c :: ChildOf(after, c, x) <==> ChildOf(nodes, c, x);
  }

  /** Failing the start of the walk first does not change what is reached below it. */
  lemma {:induction false} FailedStartSame(nodes: Nodes, root: NodeId, rank: map<NodeId, nat>, n: NodeId, x: NodeId)
    requires WellFormed(nodes, root, rank) && n in nodes
    ensures Ranked(WithState(nodes, n, ERROR), rank)
    ensures Reached(WithState(nodes, n, ERROR), rank, PendingSet(WithState(nodes, n, ERROR)), n, x)
       <==> Reached(nodes, rank, PendingSet(nodes), n, x)
    decreases if x in rank then rank[x] else 0
  {
    if x in nodes && x != n && nodes[x].parent.Some? && nodes[x].parent.value in nodes {
      FailedStartSame(nodes, root, rank, n, nodes[x].parent.value);
    }
  }

  lemma FailOneMore(nodes: Nodes, done: seq<NodeId>, n: NodeId)
    ensures FailAll(nodes, Elements(done + [n])) == WithState(FailAll(nodes, Elements(done)), n, ERROR)
  {
  }

  lemma FailOnly(nodes: Nodes, rank: map<NodeId, nat>, n: NodeId)
    requires Ranked(nodes, rank) && n in nodes
    ensures Affected(nodes, rank, n, false) == {n} == Elements([n])
    ensures FailAll(nodes, {n}) == WithState(nodes, n, ERROR)
  {
  }

  /** Failing the start and then what was found below it is failing the affected nodes. */
  lemma FailBelow(nodes: Nodes, root: NodeId, rank: map<NodeId, nat>, n: NodeId, pending: seq<NodeId>)
    requires WellFormed(nodes, root, rank) && n in nodes && Distinct(pending)
    requires var failed := WithState(nodes, n, ERROR);
             Ranked(failed, rank) && forall x ::
               x in pending <==> x != n && x in failed && Reached(failed, rank, PendingSet(failed), n, x)
    ensures Distinct([n] + pending) && Elements([n] + pending) == Affected(nodes, rank, n, true)
    ensures FailAll(WithState(nodes, n, ERROR), Elements(pending)) == FailAll(nodes, Affected(nodes, rank, n, true))
  {
    forall x
      ensures x in pending <==> x != n && x in nodes && Reached(nodes, rank, PendingSet(nodes), n, x)
    {
      FailedStartSame(nodes, root, rank, n, x);
    }
    hide Reached, WellFormed, PendingSet;
    DistinctJoin([n], pending);
    assert Elements([n] + pending) == {n} + Elements(pending);
  }

  /** No affected node is left with a pending child. */
  lemma NoPendingChildLeft(nodes: Nodes, root: NodeId, rank: map<NodeId, nat>, n: NodeId, x: NodeId, c: NodeId)
    requires WellFormed(nodes, root, rank) && n in nodes
    requires x in Affected(nodes, rank, n, true) && c in nodes[x].children
    ensures FailAll(nodes, Affected(nodes, rank, n, true))[c].state != PENDING
  {
    assert ChildOf(nodes, c, x);
    if c in PendingSet(nodes) {
      assert Reached(nodes, rank, PendingSet(nodes), n, x);
      assert Reached(nodes, rank, PendingSet(nodes), n, c);
    } else {
      hide Affected;
    }
  }

  /** Failing nodes makes their state ERROR and changes nothing else. */
  lemma FailedAre(nodes: Nodes, failed: set<NodeId>, n: NodeId)
    requires n in nodes
    ensures FailAll(nodes, failed).Keys == nodes.Keys
    ensures var now := FailAll(nodes, failed)[n];
            && now.state == (if n in failed then ERROR else nodes[n].state)
            && now.nodeId == nodes[n].nodeId && now.status == nodes[n].status
            && now.parent == nodes[n].parent && now.children == nodes[n].children
  {
  }

  /** Affected is the failed node and, if asked, each node with a path up to it of nodes that are pending. */
  lemma AffectedAre(nodes: Nodes, rank: map<NodeId, nat>, n: NodeId, propagate: bool, x: NodeId, pending: set<NodeId>)
    requires Ranked(nodes, rank) && n in nodes
    requires forall m :: m in pending <==> m in nodes && nodes[m].state == PENDING
    ensures x in Affected(nodes, rank, n, propagate) <==>
              x == n || (propagate && HasPathUp(nodes, pending, n, x))
  {
    assert PendingSet(nodes) == pending;
    ReachedAlongPath(nodes, rank, pending, n, x);
    hide HasPathUp, PendingSet;
  }

  // ----- Removing a branch -----

  lemma KeptChildren(children: seq<NodeId>, b: NodeId)
    ensures forall c :: c in KeepOut(children, {b}) <==> c in children && c != b
  {
    KeepOutElements(children, {b});
    var kept := KeepOut(children, {b});
    assert forall c :: (c in kept <==> c in Elements(kept)) && (c in children <==> c in Elements(children));
  }

  /** What is left is what has no path up to the removed node; of its fields only that child is gone. */
  lemma PrunedAre(nodes: Nodes, root: NodeId, rank: map<NodeId, nat>, b: NodeId, x: NodeId)
    requires WellFormed(nodes, root, rank) && b in nodes && x in nodes
    ensures var left := Prune(nodes, Branch(nodes, rank, b), b);
            && left.Keys <= nodes.Keys
            && (x in left <==> !HasPathUp(nodes, nodes.Keys, b, x))
            && (x in left ==>
                  && left[x].nodeId == nodes[x].nodeId && left[x].status == nodes[x].status
                  && left[x].state == nodes[x].state && left[x].parent == nodes[x].parent
                  && forall c :: c in left[x].children <==> c in nodes[x].children && c != b)
  {
    ReachedAlongPath(nodes, rank, nodes.Keys, b, x);
    hide Reached, HasPathUp, WellFormed;
    KeptChildren(nodes[x].children, b);
  }

  lemma PruneWellFormed(nodes: Nodes, root: NodeId, rank: map<NodeId, nat>, b: NodeId)
    requires WellFormed(nodes, root, rank) && b in nodes && b != root
    ensures WellFormed(Prune(nodes, Branch(nodes, rank, b), b), root, rank)
  {
    var gone := Branch(nodes, rank, b);
    var after := Prune(nodes, gone, b);
    assert root !in gone by {
      if root in gone { ReachedHasRank(nodes, rank, nodes.Keys, b, root); AllBelowRoot(nodes, root, rank, b); RootIsLowest(nodes, root, rank, b); }
    }
    forall n | n in nodes
      ensures Distinct(KeepOut(nodes[n].children, {b}))
      ensures forall c :: c in KeepOut(nodes[n].children, {b}) <==> c in nodes[n].children && c != b
    {
      KeepOutElements(nodes[n].children, {b});
      assert forall c :: c in KeepOut(nodes[n].children, {b}) <==> c in Elements(KeepOut(nodes[n].children, {b}));
    }
    forall n | n in after && n != root
      ensures after[n].parent.Some? && after[n].parent.value in after
    {
      assert nodes[n].parent.value in gone ==> n in gone;
    }
    forall n, c | n in after
      ensures c in after[n].children <==> ChildOf(after, c, n)
    {
      ChildListed(nodes, root, rank, c, n);
      assert c in gone && c != b && ChildOf(nodes, c, n) ==> n in gone;
      assert b in gone;
    }
  }

  lemma {:induction false} RootIsLowest(nodes: Nodes, root: NodeId, rank: map<NodeId, nat>, b: NodeId)
    requires WellFormed(nodes, root, rank) && b in nodes && b != root
    ensures rank[root] < rank[b]
    decreases rank[b]
  {
    if nodes[b].parent.value != root { RootIsLowest(nodes, root, rank, nodes[b].parent.value); }
  }

  lemma IndexWithout(nodes: Nodes, statusToNode: map<StatusId, NodeId>, n: NodeId)
    requires IndexMatches(nodes, statusToNode) && n in nodes
    ensures IndexMatches(nodes - {n}, statusToNode - {nodes[n].status})
  {
  }

  lemma IndexPruned(nodes: Nodes, gone: set<NodeId>, b: NodeId, statusToNode: map<StatusId, NodeId>)
    requires IndexMatches(nodes - gone, statusToNode)
    ensures IndexMatches(Prune(nodes, gone, b), statusToNode)
  {
    assert forall n :: n in Prune(nodes, gone, b) <==> n in nodes - gone;
  }

  /** One round of the pending walk keeps it, and keeps the list equal to what was seen below the start. */
  lemma PendingStep(nodes: Nodes, root: NodeId, rank: map<NodeId, nat>, from: NodeId,
                    visited: seq<NodeId>, stack: seq<NodeId>, pending: seq<NodeId>)
    requires WellFormed(nodes, root, rank) && from in nodes
    requires Walk(nodes, from, PendingSet(nodes), visited, stack) && stack != []
    requires forall y :: y in visited + stack ==> y in nodes
    requires Distinct(pending) && forall x :: x in pending <==> x in visited + stack && x != from
    ensures var n := stack[|stack| - 1];
            && n in nodes
            && var kids := KeepIn(nodes[n].children, PendingSet(nodes));
            var (visited', stack') := (visited + [n], stack[..|stack| - 1] + kids);
            && Walk(nodes, from, PendingSet(nodes), visited', stack')
            && (forall y :: y in visited' + stack' ==> y in nodes)
            && Distinct(pending + kids)
            && (forall x :: x in pending + kids <==> x in visited' + stack' && x != from)
  {
    var m := |stack| - 1;
    var n := stack[m];
    assert n in visited + stack;
    var kids := KeepIn(nodes[n].children, PendingSet(nodes));
    KeepInElements(nodes[n].children, PendingSet(nodes));
    WalkStep(nodes, root, rank, from, PendingSet(nodes), visited, stack, kids);
    NewKids(nodes, root, rank, from, PendingSet(nodes), visited, stack, kids);
    hide *;
    DistinctJoin(pending, kids);
    MovedElements(visited, stack, kids);
  }

  lemma MovedElements(visited: seq<NodeId>, stack: seq<NodeId>, kids: seq<NodeId>)
    requires stack != []
    ensures var after := visited + [stack[|stack| - 1]] + (stack[..|stack| - 1] + kids);
            forall x :: x in after <==> x in visited + stack || x in kids
  {
    assert stack == stack[..|stack| - 1] + [stack[|stack| - 1]];
  }

  lemma DistinctJoin(a: seq<NodeId>, b: seq<NodeId>)
    requires Distinct(a) && Distinct(b) && forall x :: x in b ==> x !in a
    ensures Distinct(a + b)
  {
    assert forall i :: 0 <= i < |b| ==> b[i] in b;
    assert forall i :: 0 <= i < |a| ==> a[i] in a;
  }

  /** Another node can be visited only if fewer than all have been. */
  lemma StepFits(nodes: Nodes, visited: seq<NodeId>, stack: seq<NodeId>)
    requires stack != [] && Distinct(visited + stack) && forall y :: y in visited + stack ==> y in nodes
    ensures |visited| < |nodes|
  {
    WalkIsShort(nodes, visited + stack);
  }

  lemma ParentRanked(nodes: Nodes, root: NodeId, rank: map<NodeId, nat>, parent: NodeId)
    requires WellFormed(nodes, root, rank) && parent in nodes
    ensures parent in rank
  {
  }

  /** A child under ids that are not in use keeps the tree well formed; under an id in use, it never does. */
  lemma ChildAddedExactly(nodes: Nodes, root: NodeId, rank: map<NodeId, nat>, statusToNode: map<StatusId, NodeId>,
                          n: NodeId, status: StatusId, parent: NodeId)
    requires WellFormed(nodes, root, rank) && IndexMatches(nodes, statusToNode) && parent in nodes && parent in rank
    ensures WellFormed(WithChild(nodes, n, status, parent), root, rank[n := rank[parent] + 1])
              && IndexMatches(WithChild(nodes, n, status, parent), statusToNode[status := n])
       <==> n !in nodes && status !in statusToNode
  {
    hide *;
    if n in nodes {
      IdUsedTwice(nodes, root, rank, n, status, parent, rank[n := rank[parent] + 1]);
    } else {
      ChildAdded(nodes, root, rank, n, status, parent);
      StatusAdded(nodes, statusToNode, n, status, parent);
    }
  }

  lemma StatusAdded(nodes: Nodes, statusToNode: map<StatusId, NodeId>, n: NodeId, status: StatusId, parent: NodeId)
    requires IndexMatches(nodes, statusToNode) && n !in nodes && parent in nodes
    ensures IndexMatches(WithChild(nodes, n, status, parent), statusToNode[status := n]) <==> status !in statusToNode
  {
    var after := WithChild(nodes, n, status, parent);
    assert forall x :: x in nodes ==> x in after && after[x].status == nodes[x].status;
    if status in statusToNode { assert after[statusToNode[status]].status == status; }
  }

  /** A node made anew under its id has two parents, or is listed twice, or is the root with a parent. */
  lemma IdUsedTwice(nodes: Nodes, root: NodeId, rank: map<NodeId, nat>, n: NodeId, status: StatusId, parent: NodeId,
                    rank': map<NodeId, nat>)
    requires WellFormed(nodes, root, rank) && n in nodes && parent in nodes
    ensures !WellFormed(WithChild(nodes, n, status, parent), root, rank')
  {
    var after := WithChild(nodes, n, status, parent);
    assert n in after && after[n].parent == Some(parent);
    if n != parent && n != root {
      var p := nodes[n].parent.value;
      ChildListed(nodes, root, rank, n, p);
      ParentIsOther(nodes, root, rank, n);
      assert n in after[p].children;
      if p == parent {
        ListedTwice(nodes[p].children, n);
        assert after[p].children == nodes[p].children + [n];
      } else if WellFormed(after, root, rank') {
        ChildListed(after, root, rank', n, p);
      }
    }
  }

  lemma ParentIsOther(nodes: Nodes, root: NodeId, rank: map<NodeId, nat>, n: NodeId)
    requires WellFormed(nodes, root, rank) && n in nodes && n != root
    ensures nodes[n].parent.Some? && nodes[n].parent.value in nodes && nodes[n].parent.value != n
  {
  }

  lemma ListedTwice(q: seq<NodeId>, n: NodeId)
    requires n in q
    ensures !Distinct(q + [n])
  {
    var i :| 0 <= i < |q| && q[i] == n;
    assert (q + [n])[i] == (q + [n])[|q|];
  }

  lemma ChildAdded(nodes: Nodes, root: NodeId, rank: map<NodeId, nat>, n: NodeId, status: StatusId, parent: NodeId)
    requires WellFormed(nodes, root, rank) && n !in nodes && parent in nodes
    ensures WellFormed(WithChild(nodes, n, status, parent), root, rank[n := rank[parent] + 1])
  {
    var after := WithChild(nodes, n, status, parent);
    forall x, c | x in after
      ensures c in after[x].children <==> ChildOf(after, c, x)
    {
      ListedAfter(nodes, root, rank, n, status, parent, x, c);
    }
    RankedAfter(nodes, root, rank, n, status, parent);
    OneMoreKid(nodes, root, rank, n, status, parent);
    hide Distinct, ChildOf, Ranked, WithChild;
  }

  lemma RankedAfter(nodes: Nodes, root: NodeId, rank: map<NodeId, nat>, n: NodeId, status: StatusId, parent: NodeId)
    requires WellFormed(nodes, root, rank) && n !in nodes && parent in nodes
    ensures Ranked(WithChild(nodes, n, status, parent), rank[n := rank[parent] + 1])
  {
    hide Distinct, ChildOf;
  }

  lemma OneMoreKid(nodes: Nodes, root: NodeId, rank: map<NodeId, nat>, n: NodeId, status: StatusId, parent: NodeId)
    requires WellFormed(nodes, root, rank) && n !in nodes && parent in nodes
    ensures var after := WithChild(nodes, n, status, parent);
            && root in after && after[root].parent == None
            && (forall x :: x in after ==> after[x].nodeId == x && Distinct(after[x].children))
            && (forall x :: x in after && x != root ==> after[x].parent.Some? && after[x].parent.value in after)
  {
    NotListed(nodes, root, rank, n);
    DistinctMore(nodes[parent].children, n);
    hide Distinct, ChildOf, Ranked;
  }

  lemma ListedAfter(nodes: Nodes, root: NodeId, rank: map<NodeId, nat>, n: NodeId, status: StatusId, parent: NodeId,
                    x: NodeId, c: NodeId)
    requires WellFormed(nodes, root, rank) && n !in nodes && parent in nodes
    requires x in WithChild(nodes, n, status, parent)
    ensures var after := WithChild(nodes, n, status, parent);
            c in after[x].children <==> ChildOf(after, c, x)
  {
    NotListed(nodes, root, rank, n);
    if x in nodes { ChildListed(nodes, root, rank, c, x); }
    NoneBelow(nodes, root, rank, n, c);
    hide WellFormed;
  }

  lemma NoneBelow(nodes: Nodes, root: NodeId, rank: map<NodeId, nat>, n: NodeId, c: NodeId)
    requires WellFormed(nodes, root, rank) && n !in nodes
    ensures !ChildOf(nodes, c, n)
  {
  }

  lemma NotListed(nodes: Nodes, root: NodeId, rank: map<NodeId, nat>, n: NodeId)
    requires WellFormed(nodes, root, rank) && n !in nodes
    ensures forall x :: x in nodes ==> n !in nodes[x].children
  {
    forall x | x in nodes ensures n !in nodes[x].children { ChildListed(nodes, root, rank, n, x); }
  }

  lemma DistinctMore(q: seq<NodeId>, n: NodeId)
    requires Distinct(q) && n !in q
    ensures Distinct(q + [n])
  {
  }
}
