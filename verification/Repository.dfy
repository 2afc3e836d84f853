/**
 * The trees and the lookup from message ids to trees
 * (messaging/trees/repository.py), with the operations that keep them in step
 * (messaging/trees/queue_manager.py).
 */
module Repository {
  import opened Text
  import opened TreeQueue
  import opened TreeData

  /** The tree has the id as that of a node or of a status message. */
  ghost predicate Uses(nodes: Nodes, m: nat) {
    m in nodes || exists n :: n in nodes && nodes[n].status == m
  }

  /**
   * Every node of tree r is registered with r; its status id is too if it is
   * registered at all, and then is no other node's id.
   */
  ghost predicate Registered(r: NodeId, nodes: Nodes, reg: map<nat, NodeId>) {
    forall n :: n in nodes ==>
      && n in reg && reg[n] == r
      && (nodes[n].status in reg ==> reg[nodes[n].status] == r && (nodes[n].status in nodes ==> nodes[n].status == n))
  }

  /** Registering one more id leaves a tree right exactly if it does not use the id, or the id is registered with it. */
  lemma OneMoreExactly(r: NodeId, nodes: Nodes, reg: map<nat, NodeId>, m: nat, root: NodeId)
    requires Registered(r, nodes, reg)
    ensures Registered(r, nodes, reg[m := root]) <==> (Uses(nodes, m) ==> root == r)
  {
    var more := reg[m := root];
    assert m in more && more[m] == root;
    assert m in nodes ==> m in reg;
  }

  /** Unregistering ids that are no nodes of the tree. */
  lemma FewerKeep(r: NodeId, nodes: Nodes, reg: map<nat, NodeId>, gone: set<nat>)
    requires Registered(r, nodes, reg) && forall m :: m in gone ==> m !in nodes
    ensures Registered(r, nodes, reg - gone)
  {
  }

  lemma OtherTree(r: NodeId, nodes: Nodes, q: NodeId, others: Nodes, reg: map<nat, NodeId>)
    requires Registered(r, nodes, reg) && Registered(q, others, reg) && r != q
    ensures forall n :: n in nodes ==> n !in others
  {
  }

  ghost predicate AllRegistered(trees: map<NodeId, Nodes>, reg: map<nat, NodeId>) {
    forall r :: r in trees ==> Registered(r, trees[r], reg)
  }

  /** A tree of one node, under its own id. */
  lemma FirstExactly(n: NodeId, nodes: Nodes, reg: map<nat, NodeId>)
    requires nodes.Keys == {n} && n in reg && reg[n] == n
    ensures Registered(n, nodes, reg) <==> (nodes[n].status in reg ==> reg[nodes[n].status] == n)
  {
    assert n in nodes;
  }

  /** The status id of a new node n is not in the way: registered, if at all, with this tree, and no other node's id. */
  ghost predicate StatusFits(r: NodeId, nodes: Nodes, reg: map<nat, NodeId>, n: NodeId, status: nat) {
    status == n || (status in reg ==> reg[status] == r && status !in nodes)
  }

  /** A new node that is registered leaves its tree right exactly if its ids are not in the way. */
  lemma ReplyExactly(r: NodeId, nodes: Nodes, after: Nodes, reg: map<nat, NodeId>, n: NodeId)
    requires Registered(r, nodes, reg) && n !in nodes && after.Keys == nodes.Keys + {n}
    requires forall x :: x in nodes ==> after[x].status == nodes[x].status
    ensures Registered(r, after, reg[n := r]) <==> !Uses(nodes, n) && StatusFits(r, nodes, reg, n, after[n].status)
  {
    var (more, status) := (reg[n := r], after[n].status);
    assert n in after && n in more && more[n] == r;
    assert status != n ==> (status in more <==> status in reg) && (status in after <==> status in nodes);
    forall x | x in nodes && nodes[x].status == n
      ensures !Registered(r, after, more)
    {
      assert x in after && after[x].status in more && after[x].status in after;
    }
  }

  /** A tree from which the unregistered nodes have been removed. */
  lemma PrunedKeep(r: NodeId, nodes: Nodes, after: Nodes, reg: map<nat, NodeId>, ids: set<nat>)
    requires Registered(r, nodes, reg)
    requires forall n :: n in after ==> n in nodes && n !in ids && after[n].status == nodes[n].status
    ensures Registered(r, after, reg - ids)
  {
  }

  /** Looking up a status id in a tree finds the node with that status, and nothing else. */
  lemma StatusLookup(tree: MessageTree)
    requires tree.Valid()
    ensures forall s :: s in tree.statusToNode ==>
              tree.statusToNode[s] in tree.nodes && tree.nodes[tree.statusToNode[s]].status == s
    ensures forall n :: n in tree.nodes ==>
              tree.nodes[n].nodeId == n && tree.nodes[n].status in tree.statusToNode && tree.statusToNode[tree.nodes[n].status] == n
  {
  }

  /** The ids of the removed nodes are those of the branch, which are gone from the tree. */
  lemma Unlisted(nodes: Nodes, after: Nodes, branch: set<NodeId>, b: NodeId, removed: seq<MessageNode>, ids: set<NodeId>)
    requires after == Prune(nodes, branch, b) && branch <= nodes.Keys && b in branch
    requires forall n :: n in nodes ==> nodes[n].nodeId == n
    requires (forall x :: x in branch ==> nodes[x] in removed) && (forall r :: r in removed ==> exists x :: x in branch && r == nodes[x])
    requires ids == set node | node in removed :: node.nodeId
    ensures ids == branch && after.Keys == nodes.Keys - branch && b !in after
    ensures forall n :: n in after ==> n in nodes && after[n].status == nodes[n].status
  {
  }

  /** The nodes that go when b is removed; none if b is no node of the tree. */
  ghost function BranchIds(tree: MessageTree, b: NodeId): set<NodeId>
    requires tree.Valid()
    reads tree
  {
    if b in tree.nodes then Branch(tree.nodes, tree.rank, b) else {}
  }

  /** The nodes that stay when b is removed. */
  ghost function Pruned(tree: MessageTree, b: NodeId): Nodes
    requires tree.Valid()
    reads tree
  {
    if b in tree.nodes then Prune(tree.nodes, BranchIds(tree, b), b) else tree.nodes
  }

  /** Prunes one tree; returns the ids of the removed nodes. */
  method PruneTree(tree: MessageTree, b: NodeId) returns (ids: set<NodeId>)
    requires tree.Valid() && b != tree.rootId
    modifies tree
    ensures tree.Valid() && b !in tree.nodes
    ensures ids == old(BranchIds(tree, b)) && tree.nodes == old(Pruned(tree, b))
    ensures forall n :: n in tree.nodes ==>
              n in old(tree.nodes) && n !in ids && tree.nodes[n].status == old(tree.nodes)[n].status
  {
    ghost var nodes := tree.nodes;
    StatusLookup(tree);
    BranchInTree(tree, b);
    ghost var branch := BranchIds(tree, b);
    hide MessageTree.Valid;
    var removed := tree.RemoveBranch(b);
    ids := set node | node in removed :: node.nodeId;
    if b in nodes {
      Unlisted(nodes, tree.nodes, branch, b, removed, ids);
    }
  }

  lemma BranchInTree(tree: MessageTree, b: NodeId)
    requires tree.Valid()
    ensures Ranked(tree.nodes, tree.rank)
    ensures b in tree.nodes ==> b in Branch(tree.nodes, tree.rank, b) && Branch(tree.nodes, tree.rank, b) <= tree.nodes.Keys
  {
  }

  lemma ReplyRegistered(r: NodeId, nodes: Nodes, reg: map<nat, NodeId>, n: NodeId, status: nat, parent: NodeId)
    requires Registered(r, nodes, reg) && parent in nodes
    ensures n !in nodes ==>
              (Registered(r, WithChild(nodes, n, status, parent), reg[n := r]) <==> !Uses(nodes, n) && StatusFits(r, nodes, reg, n, status))
    ensures Uses(nodes, n) || n !in nodes
  {
    if n !in nodes {
      var after := WithChild(nodes, n, status, parent);
      assert after.Keys == nodes.Keys + {n} && after[n].status == status;
      hide Registered, Uses, StatusFits, WithChild;
      ReplyExactly(r, nodes, after, reg, n);
    }
  }

  class TreeRepository {
    var trees: map<NodeId, MessageTree>
    var nodeToTree: map<nat, NodeId>
    ghost var objects: set<object>  // the trees, and not this object

    /** Each tree is well formed and rightly registered. Registrations of removed status ids may be left over. */
    ghost predicate Valid()
      reads this, objects
    {
      && this !in objects && (forall r :: r in trees ==> trees[r] in objects)
      && (forall r :: r in trees ==> trees[r].rootId == r && trees[r].Valid() && Registered(r, trees[r].nodes, nodeToTree))
    }

    /** n is a live node of tree r, and m is its id or its registered status id. */
    ghost predicate AnswersIn(r: NodeId, m: nat, n: NodeId)
      reads this, objects
    {
      r in trees && trees[r] in objects && n in trees[r].nodes && (m == n || (m in nodeToTree && trees[r].nodes[n].status == m))
    }

    /** No tree but that under `root` uses the id. */
    ghost predicate NotElsewhere(m: nat, root: NodeId)
      requires Valid()
      reads this, objects
    {
      forall r :: r in trees && r != root ==> !Uses(trees[r].nodes, m)
    }

    constructor ()
      ensures Valid() && trees == map[] && nodeToTree == map[]
    {
      trees, nodeToTree, objects := map[], map[], {};
    }

    /** The nodes of all trees but one. */
    ghost function Others(root: NodeId): map<NodeId, Nodes>
      requires forall r :: r in trees ==> trees[r] in objects
      reads this, objects
    {
      map r | r in trees && r != root :: trees[r].nodes
    }

    lemma OthersRegistered(root: NodeId, reg: map<nat, NodeId>)
      requires forall r :: r in trees ==> trees[r] in objects
      ensures AllRegistered(Others(root), reg) <==> forall r :: r in trees && r != root ==> Registered(r, trees[r].nodes, reg)
    {
      hide Registered;
      var others := Others(root);
      forall r | r in trees && r != root
        ensures r in others && others[r] == trees[r].nodes
      {
      }
      if AllRegistered(others, reg) {
        forall r | r in trees && r != root ensures Registered(r, trees[r].nodes, reg) { assert r in others; }
      }
    }

    /** Registering an id leaves all trees but one right exactly if no other uses it. */
    lemma OthersExactly(m: nat, root: NodeId)
      requires Valid()
      ensures AllRegistered(Others(root), nodeToTree[m := root]) <==> NotElsewhere(m, root)
    {
      hide MessageTree.Valid, Registered, Uses, AllRegistered;
      OthersRegistered(root, nodeToTree[m := root]);
      forall r | r in trees && r != root
        ensures Registered(r, trees[r].nodes, nodeToTree[m := root]) <==> !Uses(trees[r].nodes, m)
      {
        OneMoreExactly(r, trees[r].nodes, nodeToTree, m, root);
      }
    }

    /** Nodes of one tree can be unregistered without disturbing the others. */
    lemma OthersStay(root: NodeId, gone: set<nat>)
      requires Valid() && root in trees && gone <= trees[root].nodes.Keys
      ensures forall r :: r in trees && r != root ==> Registered(r, trees[r].nodes, nodeToTree - gone)
    {
      hide MessageTree.Valid, Registered;
      forall r | r in trees && r != root
        ensures Registered(r, trees[r].nodes, nodeToTree - gone)
      {
        OtherTree(root, trees[root].nodes, r, trees[r].nodes, nodeToTree);
        FewerKeep(r, trees[r].nodes, nodeToTree, gone);
      }
    }

    /** A live node is registered with its own tree. */
    lemma LiveIsRegistered(m: nat)
      requires Valid()
      ensures forall r :: r in trees && m in trees[r].nodes ==> m in nodeToTree && nodeToTree[m] == r
    {
      hide MessageTree.Valid;
      forall r | r in trees && m in trees[r].nodes
        ensures m in nodeToTree && nodeToTree[m] == r
      {
        assert Registered(r, trees[r].nodes, nodeToTree);
      }
    }

    /** A live node gives exactly its own tree; no id gives a tree that is not there. */
    method GetTreeForNode(m: nat) returns (tree: MessageTree?)
      requires Valid()
      ensures forall r :: r in trees && m in trees[r].nodes ==> tree == trees[r]
      ensures tree != null ==> tree in objects && tree.rootId in trees && trees[tree.rootId] == tree
      ensures tree != null <==> m in nodeToTree && nodeToTree[m] in trees
      ensures tree != null ==> tree.rootId == nodeToTree[m]
    {
      LiveIsRegistered(m);
      hide MessageTree.Valid, Registered;
      if m !in nodeToTree || nodeToTree[m] !in trees {
        return null;
      }
      tree := trees[nodeToTree[m]];
    }

    /** The node to reply to: the live node with this id or this registered status id, if there is one. */
    method ResolveParentNodeId(m: nat) returns (n: Option<NodeId>)
      requires Valid()
      ensures n.Some? ==> exists r :: AnswersIn(r, m, n.value)
      ensures forall r, x: NodeId :: AnswersIn(r, m, x) ==> n == Some(x)
    {
      hide MessageTree.Valid;
      forall r, x: NodeId | AnswersIn(r, m, x)
        ensures m in nodeToTree && nodeToTree[m] == r
        ensures m in trees[r].nodes ==> m == x
      {
        assert Registered(r, trees[r].nodes, nodeToTree);
      }
      var tree := GetTreeForNode(m);
      if tree == null {
        return None;
      }
      ghost var r := nodeToTree[m];
      hide Registered;
      if m in tree.nodes {
        assert AnswersIn(r, m, m);
        return Some(m);
      }
      StatusLookup(tree);
      if m in tree.statusToNode && tree.statusToNode[m] in tree.nodes {
        n := Some(tree.nodes[tree.statusToNode[m]].nodeId);
        assert AnswersIn(r, m, n.value);
        return;
      }
      n := None;
    }

    /**
     * A new tree of one node, instead of any under its id. The index stays
     * right exactly if no other tree uses that id, and the status id is not
     * registered with another.
     */
    method CreateTree(n: NodeId, status: nat) returns (tree: MessageTree)
      requires Valid()
      modifies this
      ensures fresh(tree) && trees == old(trees)[n := tree] && tree.Valid()
      ensures tree.nodes == map[n := MessageNode(n, status, PENDING, None, [])]
      ensures nodeToTree == old(nodeToTree)[n := n]
      ensures Valid() <==> old(NotElsewhere(n, n)) && (status == n || (status in old(nodeToTree) ==> old(nodeToTree)[status] == n))
    {
      hide MessageTree.Valid, Registered, NotElsewhere, AllRegistered;
      OthersExactly(n, n);
      ghost var others := Others(n);
      tree := new MessageTree(n, status);
      trees := trees[n := tree];
      objects := objects + {tree};
      nodeToTree := nodeToTree[n := n];
      FirstExactly(n, tree.nodes, nodeToTree);
      assert status in nodeToTree <==> status == n || status in old(nodeToTree);
      assert Others(n) == others;
      OthersRegistered(n, nodeToTree);
      assert n in trees && trees[n] == tree && tree.nodes[n].status == status;
      assert forall r :: r in trees && r != n ==> trees[r] == old(trees)[r] && trees[r].rootId == r && trees[r].Valid();
    }

    /**
     * Adds a reply; false if the parent is no live node. The index stays right
     * exactly if no tree uses the reply's id and its status id is not in the way.
     */
    method AddToTree(parent: NodeId, n: NodeId, status: nat) returns (ok: bool)
      requires Valid()
      modifies this, objects
      ensures trees == old(trees) && objects == old(objects)
      ensures !ok ==> Valid() && nodeToTree == old(nodeToTree) && forall r :: r in trees ==> parent !in old(trees[r].nodes)
      ensures ok ==>
                && parent in old(nodeToTree) && nodeToTree == old(nodeToTree)[n := old(nodeToTree)[parent]]
                && nodeToTree[n] in trees && parent in old(trees[nodeToTree[parent]].nodes)
                && trees[nodeToTree[n]].nodes == WithChild(old(trees[nodeToTree[parent]].nodes), n, status, parent)
                && (Valid() <==> old(ReplyFits(nodeToTree[parent], n, status)))
      ensures forall r :: r in trees && (ok ==> r != nodeToTree[n]) ==> trees[r].nodes == old(trees[r].nodes)
    {
      hide MessageTree.Valid, Registered, ReplyFits;
      LiveIsRegistered(parent);
      ok := false;
      var tree := GetTreeForNode(parent);
      if tree != null {
        ok := AddReply(tree, parent, n, status);
      }
    }

    /** The ids of a new reply are new to all trees, as far as they matter. */
    ghost predicate ReplyFits(root: NodeId, n: NodeId, status: nat)
      requires Valid() && root in trees
      reads this, objects
    {
      && NotElsewhere(n, root) && !Uses(trees[root].nodes, n) && status !in trees[root].statusToNode
      && StatusFits(root, trees[root].nodes, nodeToTree, n, status)
    }

    /** Adds a reply to the tree and registers it there, if the parent is a node of the tree. */
    method AddReply(tree: MessageTree, parent: NodeId, n: NodeId, status: nat) returns (ok: bool)
      requires Valid() && tree.rootId in trees && trees[tree.rootId] == tree
      modifies tree, this`nodeToTree
      ensures ok <==> parent in old(tree.nodes)
      ensures !ok ==> Valid() && nodeToTree == old(nodeToTree) && tree.nodes == old(tree.nodes)
      ensures ok ==>
                && nodeToTree == old(nodeToTree)[n := tree.rootId] && tree.nodes == WithChild(old(tree.nodes), n, status, parent)
                && (Valid() <==> old(ReplyFits(tree.rootId, n, status)))
    {
      hide MessageTree.Valid, Registered, NotElsewhere, AllRegistered, Uses, StatusFits, WithChild;
      var r := tree.rootId;
      OthersExactly(n, r);
      ghost var nodes, others := tree.nodes, Others(r);
      var node := tree.AddNode(n, status, parent);
      ok := node.Some?;
      if ok {
        nodeToTree := nodeToTree[n := r];
        ReplyRegistered(r, nodes, old(nodeToTree), n, status, parent);
        assert Others(r) == others;
        OthersRegistered(r, nodeToTree);
      }
    }

    /** Registers a further id, such as a node's status id; the index stays right exactly if no other tree uses it. */
    method RegisterNode(m: nat, root: NodeId)
      requires Valid()
      modifies this`nodeToTree
      ensures nodeToTree == old(nodeToTree)[m := root]
      ensures Valid() <==> old(NotElsewhere(m, root))
    {
      hide MessageTree.Valid, Registered, NotElsewhere, AllRegistered;
      OthersExactly(m, root);
      if root in trees { OneMoreExactly(root, trees[root].nodes, nodeToTree, m, root); }
      ghost var others := Others(root);
      nodeToTree := nodeToTree[m := root];
      assert Others(root) == others;
      OthersRegistered(root, nodeToTree);
    }

    method UnregisterNodes(ids: set<nat>)
      modifies this`nodeToTree
      ensures nodeToTree == old(nodeToTree) - ids
    {
      nodeToTree := nodeToTree - ids;
    }

    /** Removes a tree, if there is one, and the registrations of its nodes. */
    method RemoveTree(root: NodeId) returns (tree: MessageTree?)
      requires Valid()
      modifies this`trees, this`nodeToTree
      ensures Valid() && trees == old(trees) - {root}
      ensures tree == if root in old(trees) then old(trees)[root] else null
      ensures nodeToTree == if root in old(trees) then old(nodeToTree) - old(trees)[root].nodes.Keys else old(nodeToTree)
    {
      hide MessageTree.Valid, Registered;
      tree := null;
      if root in trees {
        tree := trees[root];
        OthersStay(root, tree.nodes.Keys);
        trees := trees - {root};
        UnregisterNodes(tree.nodes.Keys);
      } else {
        assert trees - {root} == trees;
      }
    }

    /** Removes a branch that is not the whole tree, and the registrations of its nodes. */
    method RemoveFromTree(tree: MessageTree, b: NodeId) returns (ids: set<NodeId>)
      requires Valid() && tree.rootId in trees && trees[tree.rootId] == tree && b != tree.rootId
      modifies tree, this`nodeToTree
      ensures Valid() && b !in tree.nodes && ids == old(BranchIds(tree, b))
      ensures tree.nodes == old(Pruned(tree, b)) && nodeToTree == old(nodeToTree) - old(BranchIds(tree, b))
    {
      hide MessageTree.Valid, Registered;
      ghost var nodes := tree.nodes;
      ghost var branch := BranchIds(tree, b);
      OthersStay(tree.rootId, branch);
      ids := PruneTree(tree, b);
      PrunedKeep(tree.rootId, nodes, tree.nodes, nodeToTree, ids);
      UnregisterNodes(ids);
    }

    /** Removes a node and all below it; the whole tree if it is the root. All else stays as it is. Returns what went. */
    method RemoveBranch(b: NodeId) returns (removed: set<NodeId>, root: Option<NodeId>, entire: bool)
      requires Valid()
      modifies this, objects
      ensures Valid() && forall r :: r in trees ==> b !in trees[r].nodes
      ensures root.Some? <==> b in old(nodeToTree) && old(nodeToTree)[b] in old(trees)
      ensures root.Some? ==> root.value == old(nodeToTree)[b] && (entire <==> b == root.value)
      ensures root.None? ==> trees == old(trees) && nodeToTree == old(nodeToTree) && !entire
      ensures removed == if root.None? then {} else if entire then old(trees[b].nodes.Keys)
                         else old(BranchIds(trees[nodeToTree[b]], b))
      ensures entire ==> trees == old(trees) - {b} && nodeToTree == old(nodeToTree) - old(trees)[b].nodes.Keys
      ensures root.Some? && !entire ==>
                && trees == old(trees) && nodeToTree == old(nodeToTree) - old(BranchIds(trees[nodeToTree[b]], b))
                && trees[root.value].nodes == old(Pruned(trees[nodeToTree[b]], b))
      ensures forall r :: r in trees && Some(r) != root ==> trees[r].nodes == old(trees[r].nodes)
    {
      hide MessageTree.Valid, Registered;
      LiveIsRegistered(b);
      var tree := GetTreeForNode(b);
      removed, root, entire := {}, None, false;
      if tree != null {
        root, entire := Some(tree.rootId), b == tree.rootId;
        if entire {
          var gone := RemoveTree(b);
          removed := gone.nodes.Keys;
        } else {
          removed := RemoveFromTree(tree, b);
        }
      }
    }
  }
}
