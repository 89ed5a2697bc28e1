/** The tree of blocks with many heads (shared/datastruct/mrootedtree.go). */
module MRootTree {
  import opened Blocks

  // `child` is the preceding block. Only the list of extending blocks changes after construction.
  class Node {
    const id: Digest
    const height: nat
    const child: Node?
    const value: Block
    var parents: seq<Node>

    constructor (id: Digest, height: nat, child: Node?, value: Block)
      ensures this.id == id && this.height == height && this.child == child && this.value == value && parents == []
    {
      this.id := id;
      this.height := height;
      this.child := child;
      this.value := value;
      parents := [];
    }

    // Heights fall by one along the child pointers down to 0.
    predicate Grounded()
      decreases height
    {
      if child == null then height == 0 else height == child.height + 1 && child.Grounded()
    }

    // The nodes from the first block to this one.
    function Path(): (p: seq<Node>)
      requires Grounded()
      ensures |p| == height + 1 && p[height] == this
      decreases height
    {
      if child == null then [this] else child.Path() + [this]
    }

    function Blocks(): (c: seq<Block>)
      requires Grounded()
      ensures |c| == height + 1 && c[height] == value
      decreases height
    {
      if child == null then [value] else child.Blocks() + [value]
    }
  }

  lemma {:induction false} PathIsLinked(n: Node, i: nat)
    requires n.Grounded() && i <= n.height
    ensures var p := n.Path();
            && p[i].Grounded() && p[i].height == i && p[i].Path() == p[..i + 1]
            && n.Blocks()[i] == p[i].value && p[i].Blocks() == n.Blocks()[..i + 1]
            && (if i == 0 then p[i].child == null else p[i].child == p[i - 1])
    decreases n.height
  {
    if i == n.height {
      assert n.Path()[..i + 1] == n.Path() && n.Blocks()[..i + 1] == n.Blocks();
    } else {
      PathIsLinked(n.child, i);
      assert n.Path()[..i + 1] == n.child.Path()[..i + 1];
      assert n.Blocks()[..i + 1] == n.child.Blocks()[..i + 1];
    }
  }

  // `transverseChain`: fills an array from its front while walking to the first block, then reverses it.
  method TransverseChain(root: Node) returns (res: array<Node>)
    requires root.Grounded()
    ensures fresh(res) && res[..] == root.Path()
  {
    ghost var p := root.Path();
    var h := root.height;
    res := new Node[h + 1](_ => root);
    var nd: Node?, i := root, 0;
    while nd != null
      invariant 0 <= i <= h + 1
      invariant if i == h + 1 then nd == null else nd == p[h - i] && nd.Grounded() && nd.height == h - i
      invariant forall k :: 0 <= k < i ==> res[k] == p[h - k]
      decreases h + 1 - i
    {
      PathIsLinked(root, h - i);
      res[i] := nd;
      nd, i := nd.child, i + 1;
    }
    var l, r := 0, h;
    while l < r
      invariant 0 <= l <= r + 1 && l + r == h
      invariant forall k :: 0 <= k < l || r < k <= h ==> res[k] == p[k]
      invariant forall k :: l <= k <= r ==> res[k] == p[h - k]
      decreases r - l
    {
      res[l], res[r] := res[r], res[l];
      l, r := l + 1, r - 1;
    }
  }

  // The tree as a map from block ids to chains, genesis first.
  type ChainMap = map<Digest, seq<Block>>

  // ---------- The tree invariant, over the values of the fields ----------

  ghost predicate Has(nodes: map<Digest, Node>, n: Node) {
    n.id in nodes && nodes[n.id] == n
  }

  // Every node is stored under its own id and its child pointers stay in the tree.
  ghost predicate NodesOk(md5: Hasher, nodes: map<Digest, Node>) {
    forall i :: i in nodes ==>
      && nodes[i].id == i && Id(md5, nodes[i].value) == i && nodes[i].Grounded()
      && (nodes[i].child != null ==> Has(nodes, nodes[i].child))
  }

  ghost predicate IsExtended(nodes: map<Digest, Node>, n: Node) {
    exists i :: i in nodes && nodes[i].child == n
  }

  // The nodes that no node extends.
  ghost function Leaves(nodes: map<Digest, Node>): set<Node> {
    set i | i in nodes && !IsExtended(nodes, nodes[i]) :: nodes[i]
  }

  // The list of roots has no repetition, and the map is its inverse.
  ghost predicate Inverse(roots: seq<Node>, rootsFast: map<Node, nat>) {
    && (forall k :: 0 <= k < |roots| ==> roots[k] in rootsFast && rootsFast[roots[k]] == k)
    && (forall n :: n in rootsFast ==> rootsFast[n] < |roots| && roots[rootsFast[n]] == n)
  }

  ghost predicate RootsOk(nodes: map<Digest, Node>, roots: seq<Node>, rootsFast: map<Node, nat>) {
    Inverse(roots, rootsFast) && rootsFast.Keys == Leaves(nodes)
  }

  // The head is a node of maximal height.
  ghost predicate HeadOk(nodes: map<Digest, Node>, height: nat, head: Node?) {
    if head == null then nodes == map[] && height == 0
    else Has(nodes, head) && head.height == height && forall i :: i in nodes ==> nodes[i].height <= height
  }

  // A node that can be stored: its id is new and it extends a node of the tree or none.
  ghost predicate Fresh(md5: Hasher, nodes: map<Digest, Node>, n: Node) {
    n.id !in nodes && Id(md5, n.value) == n.id && n.Grounded() && (n.child != null ==> Has(nodes, n.child))
  }

  lemma ExtendedAfter(md5: Hasher, nodes: map<Digest, Node>, n: Node, m: Node)
    requires NodesOk(md5, nodes) && Fresh(md5, nodes, n)
    ensures IsExtended(nodes[n.id := n], m) <==> IsExtended(nodes, m) || m == n.child
  {
    var after := nodes[n.id := n];
    if IsExtended(nodes, m) {
      var i :| i in nodes && nodes[i].child == m;
      assert after[i].child == m;
    }
    assert after[n.id].child == n.child;
  }

  lemma FreshIsLeaf(md5: Hasher, nodes: map<Digest, Node>, n: Node)
    requires NodesOk(md5, nodes) && Fresh(md5, nodes, n)
    ensures !IsExtended(nodes[n.id := n], n)
  {
    ExtendedAfter(md5, nodes, n, n);
  }

  // Storing a node adds it to the leaves and removes the node it extends.
  lemma LeavesAfter(md5: Hasher, nodes: map<Digest, Node>, n: Node)
    requires NodesOk(md5, nodes) && Fresh(md5, nodes, n)
    ensures Leaves(nodes[n.id := n]) == (if n.child == null then Leaves(nodes) else Leaves(nodes) - {n.child}) + {n}
    ensures n !in Leaves(nodes)
  {
    var after := nodes[n.id := n];
    FreshIsLeaf(md5, nodes, n);
    assert after[n.id] == n;
    forall i | i in nodes
      ensures IsExtended(after, nodes[i]) <==> IsExtended(nodes, nodes[i]) || nodes[i] == n.child
      ensures after[i] == nodes[i]
    {
      ExtendedAfter(md5, nodes, n, nodes[i]);
    }
  }

  lemma NodesAfter(md5: Hasher, nodes: map<Digest, Node>, n: Node)
    requires NodesOk(md5, nodes) && Fresh(md5, nodes, n)
    ensures NodesOk(md5, nodes[n.id := n])
  {
  }

  lemma FirstNodeIsGenesis(md5: Hasher, nodes: map<Digest, Node>, height: nat, head: Node?, n: Node)
    requires HeadOk(nodes, height, head) && Fresh(md5, nodes, n)
    ensures head == null ==> n.height == 0
  {
  }

  lemma HeadAfter(nodes: map<Digest, Node>, height: nat, head: Node?, n: Node)
    requires HeadOk(nodes, height, head) && n.id !in nodes && (head == null ==> n.height == 0)
    ensures if n.height >= height then HeadOk(nodes[n.id := n], n.height, n) else HeadOk(nodes[n.id := n], height, head)
  {
  }

  lemma RootsEmptyIffTreeEmpty(md5: Hasher, nodes: map<Digest, Node>, roots: seq<Node>, rootsFast: map<Node, nat>,
                               height: nat, head: Node?)
    requires NodesOk(md5, nodes) && RootsOk(nodes, roots, rootsFast) && HeadOk(nodes, height, head)
    ensures roots == [] <==> ChainsOf(md5, nodes) == map[]
  {
    if roots != [] {
      assert roots[0] in Leaves(nodes);
      var i :| i in nodes && nodes[i] == roots[0];
      assert i in ChainsOf(md5, nodes);
    }
    if head != null {
      assert !IsExtended(nodes, head);
      assert head in Leaves(nodes);
      assert rootsFast[head] < |roots|;
    }
  }

  lemma ReplaceRoot(roots: seq<Node>, rootsFast: map<Node, nat>, m: Node, n: Node)
    requires Inverse(roots, rootsFast) && m in rootsFast && n !in rootsFast
    ensures Inverse(roots[rootsFast[m] := n], (rootsFast - {m})[n := rootsFast[m]])
  {
  }

  lemma AppendRoot(roots: seq<Node>, rootsFast: map<Node, nat>, n: Node)
    requires Inverse(roots, rootsFast) && n !in rootsFast
    ensures Inverse(roots + [n], rootsFast[n := |roots|])
  {
  }

  ghost function ChainsOf(md5: Hasher, nodes: map<Digest, Node>): ChainMap
    requires NodesOk(md5, nodes)
  {
    map i | i in nodes :: nodes[i].Blocks()
  }

  // Storing a node adds its chain and leaves every other chain alone.
  lemma ChainsAfter(md5: Hasher, nodes: map<Digest, Node>, n: Node)
    requires NodesOk(md5, nodes) && Fresh(md5, nodes, n)
    ensures NodesOk(md5, nodes[n.id := n])
    ensures ChainsOf(md5, nodes[n.id := n])
         == ChainsOf(md5, nodes)[n.id := (if n.child == null then [] else ChainsOf(md5, nodes)[n.child.id]) + [n.value]]
  {
    NodesAfter(md5, nodes, n);
    BlocksOfNew(md5, nodes, n);
    assert nodes[n.id := n].Keys == nodes.Keys + {n.id};
  }

  lemma BlocksOfNew(md5: Hasher, nodes: map<Digest, Node>, n: Node)
    requires NodesOk(md5, nodes) && Fresh(md5, nodes, n)
    ensures n.Blocks() == (if n.child == null then [] else ChainsOf(md5, nodes)[n.child.id]) + [n.value]
  {
    if n.child == null {
      assert [] + [n.value] == [n.value];
    }
  }

  class MRootTree {
    const md5: Hasher
    // The height of the tree.
    var height: nat
    var roots: seq<Node>
    // The position of each root in `roots`.
    var rootsFast: map<Node, nat>
    var nodes: map<Digest, Node>
    var longestChainHead: Node?

    constructor (md5: Hasher)
      ensures Valid() && this.md5 == md5
      ensures nodes == map[] && roots == [] && longestChainHead == null
    {
      this.md5 := md5;
      height, roots, rootsFast, nodes, longestChainHead := 0, [], map[], map[], null;
    }

    ghost predicate Valid()
      reads this
    {
      NodesOk(md5, nodes) && RootsOk(nodes, roots, rootsFast) && HeadOk(nodes, height, longestChainHead)
    }

    ghost function Chains(): ChainMap
      requires Valid()
      reads this
    {
      ChainsOf(md5, nodes)
    }

    method Find(id: Digest) returns (nd: Node?)
      ensures if id in nodes then nd == nodes[id] else nd == null
    {
      if id in nodes {
        return nodes[id];
      }
      return null;
    }

    // A failed insertion changes nothing in the tree, but the rejected node stays in the list of
    // nodes that extend the head.
    method PrependElement(e: Block, head: Node?) returns (nd: Node?)
      requires Valid() && (head != null ==> Has(nodes, head))
      modifies this, head
      ensures Valid()
      ensures nd != null <==> Id(md5, e) !in old(nodes)
      ensures nd == null ==>
                nodes == old(nodes) && roots == old(roots) && rootsFast == old(rootsFast)
                && height == old(height) && longestChainHead == old(longestChainHead)
      ensures nd == null && head != null ==>
                |head.parents| == |old(head.parents)| + 1 && old(head.parents) <= head.parents
      ensures nd != null ==>
                && fresh(nd) && nd.id == Id(md5, e) && nd.value == e && nd.child == head && nd.parents == []
                && nodes == old(nodes)[nd.id := nd]
                && (head != null ==> head.parents == old(head.parents) + [nd])
                && longestChainHead == if nd.height >= old(height) then nd else old(longestChainHead)
      ensures nd != null ==>
                Chains() == old(Chains())[nd.id := (if head == null then [] else old(Chains())[head.id]) + [e]]
    {
      var newNode: Node;
      if head != null {
        newNode := new Node(Id(md5, e), head.height + 1, head, e);
        head.parents := head.parents + [newNode];
      } else {
        newNode := new Node(Id(md5, e), 0, null, e);
      }
      if newNode.id in nodes {
        return null;
      }
      ChainsAfter(md5, nodes, newNode);
      Store(newNode);
      return newNode;
    }

    // The second half of `PrependElement`: the node goes into the map, the roots and the head.
    method Store(newNode: Node)
      requires Valid() && Fresh(md5, nodes, newNode)
      modifies this
      ensures Valid()
      ensures nodes == old(nodes)[newNode.id := newNode]
      ensures longestChainHead == if newNode.height >= old(height) then newNode else old(longestChainHead)
    {
      hide Leaves, IsExtended, Inverse, NodesOk;
      var head := newNode.child;
      ghost var before := nodes;
      NodesAfter(md5, before, newNode);
      LeavesAfter(md5, before, newNode);
      FirstNodeIsGenesis(md5, before, height, longestChainHead, newNode);
      nodes := nodes[newNode.id := newNode];
      PlaceRoot(newNode, head, before);
      assert height == old(height) && longestChainHead == old(longestChainHead);
      RaiseHead(newNode, before);
    }

    method RaiseHead(newNode: Node, ghost before: map<Digest, Node>)
      requires HeadOk(before, height, longestChainHead) && nodes == before[newNode.id := newNode]
      requires newNode.id !in before && (longestChainHead == null ==> newNode.height == 0)
      modifies `height, `longestChainHead
      ensures HeadOk(nodes, height, longestChainHead)
      ensures longestChainHead == if newNode.height >= old(height) then newNode else old(longestChainHead)
    {
      HeadAfter(before, height, longestChainHead, newNode);
      if newNode.height >= height {
        longestChainHead := newNode;
        height := newNode.height;
      }
    }

    // The new node takes the place of the root it extends, or is a further root.
    method PlaceRoot(newNode: Node, head: Node?, ghost before: map<Digest, Node>)
      requires RootsOk(before, roots, rootsFast) && newNode !in rootsFast
      requires Leaves(nodes) == (if head == null then Leaves(before) else Leaves(before) - {head}) + {newNode}
      modifies `roots, `rootsFast
      ensures RootsOk(nodes, roots, rootsFast)
    {
      if head != null && head in rootsFast {
        ReplaceRoot(roots, rootsFast, head, newNode);
        var idx := rootsFast[head];
        roots := roots[idx := newNode];
        rootsFast := rootsFast - {head};
        rootsFast := rootsFast[newNode := idx];
      } else {
        AppendRoot(roots, rootsFast, newNode);
        roots := roots + [newNode];
        rootsFast := rootsFast[newNode := |roots| - 1];
      }
    }
  }
}
