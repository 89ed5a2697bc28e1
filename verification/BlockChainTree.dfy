/** The tree of validated blocks (miner/state/tree_manager.go, `BlockChainTree`). */
module BlockChainTree {
  import opened Blocks
  import opened Chains
  import opened FileSystemState
  import opened ConfirmedView
  import Tree = MRootTree
  import V = BlockChainValidator
  import L = Ledger
  import J = JobSet

  class BlockChainTree {
    const mTree: Tree.MRootTree
    const validator: V.BlockChainValidator

    constructor (cnf: L.Config)
      ensures Valid() && Model() == L.EMPTY && validator.cnf == cnf && fresh(mTree) && fresh(validator)
    {
      var tree := new Tree.MRootTree(cnf.md5);
      mTree := tree;
      validator := new V.BlockChainValidator(cnf, tree);
    }

    ghost predicate Valid()
      reads mTree, validator
    {
      validator.mTree == mTree && validator.Valid()
    }

    ghost function Model(): L.Ledger
      requires Valid()
      reads mTree, validator
    {
      validator.Model()
    }

    // Adds a block that passes all validations.
    method Add(block: Block) returns (nd: Tree.Node?)
      requires Valid()
      modifies mTree, validator, mTree.nodes.Values
      ensures Valid()
      ensures (Model(), nd != null) == L.Add(validator.cnf, old(Model()), block)
      ensures nd != null ==> nd.value == block && Tree.Has(mTree.nodes, nd)
      ensures fresh(mTree.nodes.Values - old(mTree.nodes.Values))
    {
      hide L.Validate;
      var root, ok := validator.Validate(block);
      if !ok {
        return null;
      }
      nd := Insert(block, root);
    }

    method Insert(block: Block, root: Tree.Node?) returns (nd: Tree.Node)
      requires Valid() && Id(mTree.md5, block) !in mTree.nodes
      requires if block.kind.Genesis? then root == null
               else root != null && Tree.Has(mTree.nodes, root) && root.id == block.prev
      modifies mTree, mTree.nodes.Values
      ensures Valid()
      ensures nd.value == block && Tree.Has(mTree.nodes, nd)
      ensures Model() ==
              old(Model()).(chains := old(Model()).chains[Id(mTree.md5, block) := L.ChainOf(old(Model()), block)])
      ensures fresh(mTree.nodes.Values - old(mTree.nodes.Values))
    {
      nd := mTree.PrependElement(block, root);
      assert root == null ==> [] + [block] == [block];
    }

    // Checks a block without adding it; the answer is true when the block is rejected.
    method ValidateBlock(blk: Block) returns (rejected: bool)
      requires Valid()
      modifies validator
      ensures Valid()
      ensures Model() == L.Validate(validator.cnf, old(Model()), blk).0
      ensures rejected == !L.Validate(validator.cnf, old(Model()), blk).1
    {
      var _, ok := validator.Validate(blk);
      rejected := !ok;
    }

    method ValidateJobSet(ops: seq<BlockOp>) returns (newOps: seq<BlockOp>, accountsError: bool, filesError: bool)
      requires Valid() && mTree.longestChainHead != null
      modifies validator
      ensures Valid()
      ensures (Model(), newOps) == L.ValidateJobSet(validator.cnf, old(Model()), ops, mTree.longestChainHead.id)
      ensures !accountsError && !filesError <==> newOps == ops
      ensures var head := mTree.longestChainHead.id;
              var loaded, log := L.Load(validator.cnf, old(Model()), head), validator.LogOf(head);
              ops != [] && loaded.Some? ==>
                && (filesError <==>
                    J.FilesReject(loaded.value.files, loaded.value.accounts, ops, log, validator.cnf.fees))
                && (accountsError <==>
                    J.AccountsReject(loaded.value.files, loaded.value.accounts, ops, log, validator.cnf.fees))
      ensures var head, cached := mTree.longestChainHead.id, old(validator.generatingNodeId);
              ops != [] && L.Load(validator.cnf, old(Model()), head).None? ==>
                && (accountsError <==> validator.BalancesFail(head, cached))
                && (filesError <==> validator.FilesFail(head, cached))
    {
      newOps, accountsError, filesError := validator.ValidateJobSet(ops, mTree.longestChainHead);
    }

    // How many blocks are on top of a block in the longest chain, -1 if it is not part of that chain.
    method InLongestChain(id: Digest) returns (depth: int)
      requires Valid()
      ensures depth == -1 <==> !OnPath(LongestPath(), id)
      ensures depth != -1 ==> 0 <= depth < |LongestPath()| && LongestPath()[|LongestPath()| - 1 - depth].id == id
    {
      if mTree.longestChainHead == null {
        return -1;
      }
      depth := DepthBelow(mTree.longestChainHead, id);
    }

    ghost function LongestPath(): seq<Tree.Node>
      requires Valid()
      reads mTree, validator
    {
      if mTree.longestChainHead == null then [] else mTree.longestChainHead.Path()
    }
  }

  // The walk of `InLongestChain` from a given head.
  method DepthBelow(head: Tree.Node, id: Digest) returns (depth: int)
    requires head.Grounded()
    ensures depth == -1 <==> !OnPath(head.Path(), id)
    ensures depth != -1 ==> 0 <= depth <= head.height && head.Path()[head.height - depth].id == id
  {
    ghost var p := head.Path();
    var r: Tree.Node? := head;
    depth := 0;
    while r != null
      invariant 0 <= depth <= |p| && (r == null <==> depth == |p|)
      invariant r != null ==> r == p[|p| - 1 - depth]
      invariant forall k :: |p| - depth <= k < |p| ==> p[k].id != id
      decreases |p| - depth
    {
      if r.id == id {
        return;
      }
      Tree.PathIsLinked(head, |p| - 1 - depth);
      r := r.child;
      depth := depth + 1;
    }
    depth := -1;
  }

  ghost predicate OnPath(p: seq<Tree.Node>, id: Digest) {
    exists k :: 0 <= k < |p| && p[k].id == id
  }

  // A block whose depth exceeds both thresholds, as the miner waits for, is fully visible: the files
  // alive after it and not deleted since are in the confirmed view with the records they had.
  lemma WaitedForBlockIsVisible(head: Tree.Node, depth: nat, confirmsCreate: int, confirmsAppend: int, n: Name)
    requires head.Grounded() && depth <= head.height && depth > confirmsAppend && depth > confirmsCreate
    requires Filesystem(head.Blocks(), confirmsCreate, confirmsAppend).Some?
    ensures var chain, nd := head.Blocks(), head.Path()[head.height - depth];
            && nd.Grounded() && chain[head.height - depth] == nd.value && FullFilesystem(nd.Blocks()).Some?
            && var atBlock, view := FullFilesystem(nd.Blocks()).value,
                                    Filesystem(chain, confirmsCreate, confirmsAppend).value;
               n in atBlock && !Deletes(LogBetween(chain, head.height - depth + 1, |chain|), n) ==>
                 n in view && StillShows(atBlock[n], view[n])
  {
    Tree.PathIsLinked(head, head.height - depth);
    DeepBlockIsVisible(head.Blocks(), head.height - depth, confirmsCreate, confirmsAppend, n);
  }
}
