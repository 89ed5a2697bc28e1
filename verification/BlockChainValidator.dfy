/** The validator with its cached state (miner/state/block_chain_validator.go). */
module BlockChainValidator {
  import opened Wrappers
  import opened Blocks
  import opened Mining
  import opened Chains
  import opened FileSystemState
  import opened AccountsState
  import opened Overlay
  import opened Deltas
  import opened JobSet
  import Tree = MRootTree
  import L = Ledger

  // The blocks of a walked chain.
  method BlocksOf(nds: array<Tree.Node>, root: Tree.Node) returns (c: seq<Block>)
    requires root.Grounded() && nds[..] == root.Path()
    ensures c == root.Blocks()
  {
    c := [];
    for i := 0 to nds.Length
      invariant c == root.Blocks()[..i]
    {
      Tree.PathIsLinked(root, i);
      assert nds[i] == nds[..][i];
      c := c + [nds[i].value];
    }
  }

  method NewAccountsState(fees: Fees, nd: Tree.Node) returns (r: Option<Accounts>)
    requires nd.Grounded()
    ensures r == Balances(nd.Blocks(), fees)
  {
    var nds := Tree.TransverseChain(nd);
    var c := BlocksOf(nds, nd);
    r := GenerateState(fees, c);
  }

  method NewFilesystemState(confirmsPerFileCreate: int, confirmsPerFileAppend: int, nd: Tree.Node)
    returns (r: Option<Files>)
    requires nd.Grounded()
    ensures r == Filesystem(nd.Blocks(), confirmsPerFileCreate, confirmsPerFileAppend)
  {
    var nds := Tree.TransverseChain(nd);
    var c := BlocksOf(nds, nd);
    r := GenerateFilesystem(c, confirmsPerFileCreate, confirmsPerFileAppend);
  }

  // `FilesystemState.update`: the new entries are stored one by one, then the deleted names dropped.
  method UpdateFiles(files: Files, s: FsScan) returns (fs: Files)
    ensures fs == Fold(files, s)
  {
    fs := files;
    var rest := s.entries.Keys;
    while rest != {}
      invariant rest <= s.entries.Keys
      invariant fs.Keys == files.Keys + (s.entries.Keys - rest)
      invariant forall n :: n in fs ==> fs[n] == if n in s.entries && n !in rest then s.entries[n] else files[n]
      decreases rest
    {
      var k :| k in rest;
      fs := fs[k := s.entries[k]];
      rest := rest - {k};
    }
    assert fs == files + s.entries;
    var gone := s.deleted;
    while gone != {}
      invariant gone <= s.deleted && fs == files + s.entries - (s.deleted - gone)
      decreases gone
    {
      var k :| k in gone;
      fs := fs - {k};
      gone := gone - {k};
    }
  }

  // Checks that an account can pay a fee and applies the fee to the differences.
  method Charge(accs: Accounts, deltas: Accounts, act: Name, txFee: int) returns (res: Accounts, paid: bool)
    ensures paid <==> BalanceOf(accs, act) + Award(deltas, act, 0)[act] >= txFee
    ensures res == if paid then Award(Award(deltas, act, 0), act, -txFee) else Award(deltas, act, 0)
  {
    res := deltas;
    if act !in res {
      res := res[act := 0];
    }
    if BalanceOf(accs, act) + res[act] < txFee {
      return res, false;
    }
    res := res[act := res[act] - txFee];
    return res, true;
  }

  class BlockChainValidator {
    const cnf: L.Config
    const mTree: Tree.MRootTree
    var lastStateAccount: Accounts
    var lastFilesystemState: Files
    // None is the empty string.
    var generatingNodeId: Option<Digest>

    constructor (cnf: L.Config, mTree: Tree.MRootTree)
      requires mTree.Valid() && mTree.md5 == cnf.md5
      ensures Valid() && this.cnf == cnf && this.mTree == mTree && generatingNodeId == None
    {
      this.cnf := cnf;
      this.mTree := mTree;
      lastStateAccount, lastFilesystemState, generatingNodeId := map[], map[], None;
    }

    ghost predicate Valid()
      reads this, mTree
    {
      mTree.Valid() && mTree.md5 == cnf.md5
    }

    ghost function Cached(): Option<L.Cache>
      reads this
    {
      if generatingNodeId.None? then None
      else Some(L.Cache(generatingNodeId.value, lastStateAccount, lastFilesystemState))
    }

    // The tree and the cache as values.
    ghost function Model(): L.Ledger
      requires Valid()
      reads this, mTree
    {
      L.Ledger(mTree.Chains(), Cached())
    }

    // The two errors of a rebuild for a node that is not cached: the balances do not replay, or they do
    // and there is no confirmed view.
    ghost predicate BalancesFail(id: Digest, cached: Option<Digest>)
      requires Valid() && id in mTree.nodes
      reads this, mTree
    {
      cached != Some(id) && Balances(mTree.Chains()[id], cnf.fees).None?
    }

    ghost predicate FilesFail(id: Digest, cached: Option<Digest>)
      requires Valid() && id in mTree.nodes
      reads this, mTree
    {
      && cached != Some(id) && Balances(mTree.Chains()[id], cnf.fees).Some?
      && Filesystem(mTree.Chains()[id], cnf.confirmsCreate, cnf.confirmsAppend).None?
    }

    // Replaces the cached state by that of another node, if it is not cached already.
    method GenerateHistory(root: Tree.Node) returns (accountsError: bool, filesError: bool)
      requires Valid() && Tree.Has(mTree.nodes, root)
      modifies this
      ensures Valid()
      ensures !accountsError && !filesError <==> L.Load(cnf, old(Model()), root.id).Some?
      ensures accountsError <==> BalancesFail(root.id, old(generatingNodeId))
      ensures filesError <==> FilesFail(root.id, old(generatingNodeId))
      ensures !accountsError && !filesError ==>
                Cached() == L.Load(cnf, old(Model()), root.id) && generatingNodeId == Some(root.id)
      ensures accountsError || filesError ==> Cached() == old(Cached())
    {
      accountsError, filesError := false, false;
      if generatingNodeId != Some(root.id) {
        var bcas := NewAccountsState(cnf.fees, root);
        if bcas.None? {
          return true, false;
        }
        var fss := NewFilesystemState(cnf.confirmsCreate, cnf.confirmsAppend, root);
        if fss.None? {
          return false, true;
        }
        generatingNodeId := Some(root.id);
        lastStateAccount := bcas.value;
        lastFilesystemState := fss.value;
      }
    }

    ghost function LogOf(id: Digest): Option<seq<BlockOp>>
      requires Valid()
      reads this, mTree
    {
      if id in mTree.nodes then Some(Log(mTree.Chains()[id])) else None
    }

    // The refund of one deletion, with the current operations as a block on top of the parent chain.
    method RefundOnParent(res: Accounts, tx: BlockOp, bcs: seq<BlockOp>, idx: nat, parent: Tree.Node)
      returns (r: Accounts)
      requires Valid() && Tree.Has(mTree.nodes, parent) && idx <= |bcs|
      ensures r == Refund(res, tx.filename, LogOf(parent.id).value + bcs[..idx], cnf.fees)
    {
      var walked := Tree.TransverseChain(parent);
      var nds := BlocksOf(walked, parent);
      var fakeBlock := Block(Regular, parent.id, bcs, [], 0);
      LogOfPrefix(nds, nds + [fakeBlock], 0, |nds|);
      r := RefundOnChain(res, tx.filename, cnf.fees, nds + [fakeBlock], |nds|, idx);
    }

    // A deletion is an error when the parent block is not in the tree.
    method RefundIfKnown(res: Accounts, tx: BlockOp, bcs: seq<BlockOp>, idx: nat, parentBlock: Digest)
      returns (r: Option<Accounts>)
      requires Valid() && idx <= |bcs|
      ensures var log := LogOf(parentBlock);
              r == if log.None? then None else Some(Refund(res, tx.filename, log.value + bcs[..idx], cnf.fees))
    {
      var parent := mTree.Find(parentBlock);
      if parent == null {
        return None;
      }
      var refunded := RefundOnParent(res, tx, bcs, idx, parent);
      r := Some(refunded);
    }

    method ValidateNewAccountBlockOps(bcs: seq<BlockOp>, parentBlock: Digest, start: Accounts) returns (s: AccountScan)
      requires Valid()
      ensures s == ScanAccounts(lastStateAccount, bcs, LogOf(parentBlock), start, cnf.fees)
    {
      hide ScanAccounts, Refund, LogOf;
      ghost var log := LogOf(parentBlock);
      ScanAccountsStart(lastStateAccount, bcs, log, start, cnf.fees);
      var res := start;
      var validOps: seq<BlockOp> := [];
      var ok := true;
      for idx := 0 to |bcs|
        invariant log == LogOf(parentBlock)
        invariant ScanAccounts(lastStateAccount, bcs[..idx], log, start, cnf.fees)
               == AccountScan(res, validOps, ok, false)
      {
        var tx := bcs[idx];
        ScanAccountsStep(lastStateAccount, bcs, idx, log, start, cnf.fees);
        if tx.kind.UnknownOp? {
          FatalStays(lastStateAccount, bcs, idx + 1, log, start, cnf.fees);
          return AccountScan(res, [], false, true);
        }
        if tx.kind.DeleteFile? {
          var refunded := RefundIfKnown(res, tx, bcs, idx, parentBlock);
          if refunded.None? {
            ok := false;
            continue;
          }
          res := refunded.value;
          validOps := validOps + [tx];
          continue;
        }
        var paid;
        res, paid := Charge(lastStateAccount, res, tx.creator, FeeOf(tx, cnf.fees));
        if !paid {
          ok := false;
          continue;
        }
        validOps := validOps + [tx];
      }
      assert bcs[..|bcs|] == bcs;
      s := AccountScan(res, validOps, ok, false);
    }

    // Decides whether a block may be added, and moves the cache to the state after it. The result
    // node is the parent, null for a genesis block.
    method Validate(b: Block) returns (root: Tree.Node?, ok: bool)
      requires Valid()
      modifies this
      ensures Valid()
      ensures Model() == L.Validate(cnf, old(Model()), b).0 && ok == L.Validate(cnf, old(Model()), b).1
      ensures ok ==> Id(mTree.md5, b) !in mTree.nodes
      ensures ok ==> if b.kind.Genesis? then root == null
                     else root != null && Tree.Has(mTree.nodes, root) && root.id == b.prev
    {
      hide L.Load, L.Judge;
      root, ok := null, false;
      var known := mTree.Find(Id(cnf.md5, b));
      if known != null {
        return;
      }
      if b.kind.Genesis? {
        Tree.RootsEmptyIffTreeEmpty(mTree.md5, mTree.nodes, mTree.roots,
                                    mTree.rootsFast, mTree.height, mTree.longestChainHead);
        ok := |mTree.roots| == 0;
        return;
      }
      var ser := SerializeBlock(b);
      var valid := ProofOfWork.Valid(HashOf(cnf.md5, b, ser), ZerosForKind(b.kind, cnf.opZeros, cnf.noOpZeros));
      if !valid {
        return;
      }
      root := mTree.Find(b.prev);
      if root == null {
        return;
      }
      var accountsError, filesError := GenerateHistory(root);
      if accountsError || filesError {
        return;
      }
      ok := ValidateOn(b, root);
    }

    // The two checks on the cached state of the parent, and the update when both pass.
    method ValidateOn(b: Block, root: Tree.Node) returns (ok: bool)
      requires Valid() && Tree.Has(mTree.nodes, root) && !b.kind.Genesis?
      requires generatingNodeId == Some(root.id)
      modifies this
      ensures Valid()
      ensures ok <==> L.Judge(cnf, old(Cached()).value, b, LogOf(root.id).value).Some?
      ensures ok ==> Cached() == L.Judge(cnf, old(Cached()).value, b, LogOf(root.id).value)
      ensures !ok ==> Cached() == old(Cached())
    {
      var fsUp := ValidateNewFSBlockOps(lastFilesystemState, b.records);
      if !fsUp.ok {
        return false;
      }
      var start: Accounts := map[];
      start := Award(start, b.minerId, if b.kind.NoOp? then cnf.fees.noOpReward else cnf.fees.opReward);
      var accUp := ValidateNewAccountBlockOps(b.records, root.id, start);
      if !accUp.ok {
        return false;
      }
      generatingNodeId := Some(Id(cnf.md5, b));
      lastStateAccount := Update(lastStateAccount, accUp.deltas);
      lastFilesystemState := UpdateFiles(lastFilesystemState, fsUp);
      return true;
    }

    // Drops the jobs that cannot go into a block on the longest head. The two flags are the errors that
    // the caller sees: they stay unset exactly when nothing was dropped. Without a rebuild that fails,
    // they say whether some pass rejected a job in the account filter, and in the file filter.
    method ValidateJobSet(ops: seq<BlockOp>, rootNode: Tree.Node)
      returns (newOps: seq<BlockOp>, accountsError: bool, filesError: bool)
      requires Valid() && Tree.Has(mTree.nodes, rootNode) && mTree.longestChainHead == rootNode
      modifies this
      ensures Valid()
      ensures Model() == L.ValidateJobSet(cnf, old(Model()), ops, rootNode.id).0
      ensures newOps == L.ValidateJobSet(cnf, old(Model()), ops, rootNode.id).1
      ensures !accountsError && !filesError <==> newOps == ops
      ensures var loaded := L.Load(cnf, old(Model()), rootNode.id);
              ops != [] && loaded.Some? ==>
                var log := LogOf(rootNode.id);
                && (filesError <==> FilesReject(loaded.value.files, loaded.value.accounts, ops, log, cnf.fees))
                && (accountsError <==> AccountsReject(loaded.value.files, loaded.value.accounts, ops, log, cnf.fees))
      ensures ops != [] && L.Load(cnf, old(Model()), rootNode.id).None? ==>
                && (accountsError <==> BalancesFail(rootNode.id, old(generatingNodeId)))
                && (filesError <==> FilesFail(rootNode.id, old(generatingNodeId)))
    {
      newOps, accountsError, filesError := ops, false, false;
      if |ops| == 0 {
        return;
      }
      accountsError, filesError := GenerateHistory(rootNode);
      if accountsError || filesError {
        return [], accountsError, filesError;
      }
      newOps, accountsError, filesError := FilterToFixpoint(ops, rootNode);
    }

    method FilterToFixpoint(ops: seq<BlockOp>, rootNode: Tree.Node)
      returns (newOps: seq<BlockOp>, accountsError: bool, filesError: bool)
      requires Valid() && Tree.Has(mTree.nodes, rootNode) && mTree.longestChainHead == rootNode
      ensures newOps == FilterJobs(lastFilesystemState, lastStateAccount, ops, LogOf(rootNode.id), cnf.fees)
      ensures !accountsError && !filesError <==> newOps == ops
      ensures filesError <==>
                FilesReject(lastFilesystemState, lastStateAccount, ops, LogOf(rootNode.id), cnf.fees)
      ensures accountsError <==>
                AccountsReject(lastFilesystemState, lastStateAccount, ops, LogOf(rootNode.id), cnf.fees)
    {
      hide FilterOnce, FilterJobs, FilesReject, AccountsReject;
      newOps, accountsError, filesError := ops, false, false;
      var original: int := -1;
      ghost var fs, accs, log := lastFilesystemState, lastStateAccount, LogOf(rootNode.id);
      ghost var result := FilterJobs(fs, accs, ops, log, cnf.fees);
      while original != |newOps|
        invariant log == LogOf(rootNode.id)
        invariant |newOps| <= |ops|
        invariant if original == |newOps| then newOps == result && FilterOnce(fs, accs, newOps, log, cnf.fees) == newOps
                  else FilterJobs(fs, accs, newOps, log, cnf.fees) == result
        invariant !accountsError && !filesError <==> newOps == ops
        invariant filesError || FilesReject(fs, accs, newOps, log, cnf.fees)
             <==> FilesReject(fs, accs, ops, log, cnf.fees)
        invariant accountsError || AccountsReject(fs, accs, newOps, log, cnf.fees)
             <==> AccountsReject(fs, accs, ops, log, cnf.fees)
        decreases |newOps| + if original == |newOps| then 0 else 1
      {
        original := |newOps|;
        OnePass(fs, accs, newOps, log, cnf.fees);
        var s := ValidateNewFSBlockOps(lastFilesystemState, newOps);
        newOps := s.valid;
        if !s.ok {
          filesError := true;
        }
        var t := ValidateNewAccountBlockOps(newOps, mTree.longestChainHead.id, map[]);
        newOps := t.valid;
        if !t.ok {
          accountsError := true;
        }
      }
      WholeIsNotRejected(fs, accs, newOps, log, cnf.fees);
    }
  }

  // What one round of the loop does.
  lemma OnePass(fs: Files, accs: Accounts, ops: seq<BlockOp>, log: Option<seq<BlockOp>>, fees: Fees)
    ensures var s := ScanFs(fs, ops);
            var t := ScanAccounts(accs, s.valid, log, map[], fees);
            && t.valid == FilterOnce(fs, accs, ops, log, fees)
            && (s.ok && t.ok <==> t.valid == ops) && (!(s.ok && t.ok) ==> |t.valid| < |ops|)
            && FilterJobs(fs, accs, ops, log, fees) == FilterJobs(fs, accs, t.valid, log, fees)
            && (t.valid == ops ==> FilterJobs(fs, accs, ops, log, fees) == ops)
            && (FilesReject(fs, accs, ops, log, fees) <==> !s.ok || FilesReject(fs, accs, t.valid, log, fees))
            && (AccountsReject(fs, accs, ops, log, fees) <==> !t.ok || AccountsReject(fs, accs, t.valid, log, fees))
  {
    hide FilesReject, AccountsReject, ScanFs, ScanAccounts;
    PassDropsOrKeeps(fs, accs, ops, log, fees);
    FilesRejectNowOrLater(fs, accs, ops, log, fees);
    AccountsRejectNowOrLater(fs, accs, ops, log, fees);
  }

  lemma ScanAccountsStart(accs: Accounts, ops: seq<BlockOp>, log: Option<seq<BlockOp>>, start: Accounts, fees: Fees)
    ensures ScanAccounts(accs, ops[..0], log, start, fees) == AccountScan(start, [], true, false)
  {
  }

  lemma ScanAccountsStep(accs: Accounts, ops: seq<BlockOp>, i: nat, log: Option<seq<BlockOp>>, start: Accounts,
                         fees: Fees)
    requires i < |ops| && !ScanAccounts(accs, ops[..i], log, start, fees).fatal
    ensures ScanAccounts(accs, ops[..i + 1], log, start, fees)
         == ScanAccountOp(accs, ScanAccounts(accs, ops[..i], log, start, fees), ops[i], Followed(log, ops[..i]), fees)
  {
    assert ops[..i + 1][..i] == ops[..i];
  }

  lemma {:induction false} FatalStays(accs: Accounts, ops: seq<BlockOp>, i: nat, log: Option<seq<BlockOp>>,
                                      start: Accounts, fees: Fees)
    requires i <= |ops| && ScanAccounts(accs, ops[..i], log, start, fees).fatal
    ensures ScanAccounts(accs, ops, log, start, fees) == ScanAccounts(accs, ops[..i], log, start, fees)
  {
    if i < |ops| {
      assert ops[..|ops| - 1][..i] == ops[..i];
      FatalStays(accs, ops[..|ops| - 1], i, log, start, fees);
    } else {
      assert ops[..i] == ops;
    }
  }

  // A pass reports an error exactly when it drops something.
  lemma PassDropsOrKeeps(fs: Files, accs: Accounts, ops: seq<BlockOp>, log: Option<seq<BlockOp>>, fees: Fees)
    ensures var s := ScanFs(fs, ops);
            var t := ScanAccounts(accs, s.valid, log, map[], fees);
            && (s.ok && t.ok <==> t.valid == ops) && (!(s.ok && t.ok) ==> |t.valid| < |ops|)
  {
    FileFilter(fs, ops);
    AccountFilter(accs, ScanFs(fs, ops).valid, log, map[], fees);
    FilterOnceShrinks(fs, accs, ops, log, fees);
  }
}
