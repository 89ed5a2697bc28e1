/** The balances obtained by replaying a chain (miner/state/block_chain_state.go). */
module AccountsState {
  import opened Wrappers
  import opened Blocks
  import opened Chains

  datatype Fees = Fees(append: int, create: int, opReward: int, noOpReward: int)

  type Accounts = map<Name, int>

  function BalanceOf(accs: Accounts, a: Name): int {
    if a in accs then accs[a] else 0
  }

  function Award(accs: Accounts, a: Name, reward: int): Accounts {
    accs[a := BalanceOf(accs, a) + reward]
  }

  function Spend(accs: Accounts, a: Name, fee: int): Option<Accounts> {
    if a in accs && accs[a] >= fee then Some(accs[a := accs[a] - fee]) else None
  }

  // One transaction met by the backward walk of a refund, and whether the walk ends there.
  function RefundTx(accs: Accounts, tx: BlockOp, n: Name, fees: Fees): (Accounts, bool) {
    if tx.filename != n then (accs, false)
    else
      match tx.kind
      case CreateFile => (Award(accs, tx.creator, fees.create), true)
      case DeleteFile => (Award(accs, tx.creator, 0), true)
      case AppendFile => (Award(accs, tx.creator, fees.append), false)
      case UnknownOp => (Award(accs, tx.creator, 0), false)
  }

  // The refund for deleting file `n` after the operations of `log`, which are walked from the end.
  function Refund(accs: Accounts, n: Name, log: seq<BlockOp>, fees: Fees): Accounts
    decreases |log|
  {
    if log == [] then accs
    else
      var (next, stop) := RefundTx(accs, log[|log| - 1], n, fees);
      if stop then next else Refund(next, n, log[..|log| - 1], fees)
  }

  function SettleOp(accs: Accounts, op: BlockOp, log: seq<BlockOp>, fees: Fees): Option<Accounts> {
    match op.kind
    case CreateFile => Spend(accs, op.creator, fees.create)
    case AppendFile => Spend(accs, op.creator, fees.append)
    case DeleteFile => Some(Refund(accs, op.filename, log, fees))
    case UnknownOp => None
  }

  // The operations of one block, when `log` holds those of the blocks before it.
  function SettleOps(accs: Accounts, ops: seq<BlockOp>, log: seq<BlockOp>, fees: Fees): Option<Accounts> {
    if ops == [] then Some(accs)
    else
      var init := ops[..|ops| - 1];
      var next :- SettleOps(accs, init, log, fees);
      SettleOp(next, ops[|ops| - 1], log + init, fees)
  }

  function SettleBlock(accs: Accounts, b: Block, idx: nat, log: seq<BlockOp>, fees: Fees): Option<Accounts> {
    match b.kind
    case Genesis => if idx != 0 then None else Some(accs)
    case Regular => SettleOps(Award(accs, b.minerId, fees.opReward), b.records, log, fees)
    case NoOp => Some(Award(accs, b.minerId, fees.noOpReward))
  }

  function BalancesUpTo(chain: seq<Block>, n: nat, fees: Fees): Option<Accounts>
    requires n <= |chain|
  {
    if n == 0 then Some(map[])
    else
      var accs :- BalancesUpTo(chain, n - 1, fees);
      SettleBlock(accs, chain[n - 1], n - 1, LogBetween(chain, 0, n - 1), fees)
  }

  function Balances(chain: seq<Block>, fees: Fees): Option<Accounts> {
    if chain == [] then Some(map[])
    else if !chain[0].kind.Genesis? then None
    else BalancesUpTo(chain, |chain|, fees)
  }

  // ---------- The loops ----------

  lemma RefundSnoc(accs: Accounts, n: Name, log: seq<BlockOp>, tx: BlockOp, fees: Fees)
    ensures Refund(accs, n, log + [tx], fees) ==
            (var (next, stop) := RefundTx(accs, tx, n, fees); if stop then next else Refund(next, n, log, fees))
  {
    assert (log + [tx])[..|log|] == log;
  }

  lemma TakeSnoc(log: seq<BlockOp>, ops: seq<BlockOp>, j: nat)
    requires j < |ops|
    ensures log + ops[..j + 1] == (log + ops[..j]) + [ops[j]]
  {
  }

  // Walks the operations ops[..len] of one block backwards.
  method RefundWithinBlock(accounts: Accounts, filename: Name, fees: Fees, ops: seq<BlockOp>, len: nat,
                           ghost log: seq<BlockOp>)
    returns (accs: Accounts, stop: bool)
    requires len <= |ops|
    ensures stop ==> accs == Refund(accounts, filename, log + ops[..len], fees)
    ensures !stop ==> Refund(accs, filename, log, fees) == Refund(accounts, filename, log + ops[..len], fees)
  {
    accs := accounts;
    var j := len - 1;
    while j >= 0
      invariant -1 <= j < len
      invariant Refund(accs, filename, log + ops[..j + 1], fees) == Refund(accounts, filename, log + ops[..len], fees)
    {
      TakeSnoc(log, ops, j);
      RefundSnoc(accs, filename, log + ops[..j], ops[j], fees);
      var (next, done) := RefundTx(accs, ops[j], filename, fees);
      accs := next;
      if done {
        return accs, true;
      }
      j := j - 1;
    }
    assert log + ops[..0] == log;
    stop := false;
  }

  // A block that is not regular adds nothing to the log.
  lemma SkippedBlock(nds: seq<Block>, i: nat)
    requires i < |nds| && !nds[i].kind.Regular?
    ensures LogBetween(nds, 0, i + 1) == LogBetween(nds, 0, i)
  {
  }

  lemma CountedBlock(nds: seq<Block>, i: nat)
    requires i < |nds| && nds[i].kind.Regular?
    ensures LogBetween(nds, 0, i + 1) == LogBetween(nds, 0, i) + nds[i].records[..|nds[i].records|]
  {
    assert nds[i].records[..|nds[i].records|] == nds[i].records;
  }

  method RefundOnChain(accounts: Accounts, filename: Name, fees: Fees, nds: seq<Block>, currBlockIdx: nat,
                       curTnxId: nat)
    returns (accs: Accounts)
    requires currBlockIdx < |nds| && curTnxId <= |nds[currBlockIdx].records|
    ensures accs == Refund(accounts, filename,
                           LogBetween(nds, 0, currBlockIdx) + nds[currBlockIdx].records[..curTnxId], fees)
  {
    var stop;
    accs, stop := RefundWithinBlock(accounts, filename, fees, nds[currBlockIdx].records, curTnxId,
                                    LogBetween(nds, 0, currBlockIdx));
    if stop {
      return;
    }
    ghost var target := Refund(accounts, filename,
                               LogBetween(nds, 0, currBlockIdx) + nds[currBlockIdx].records[..curTnxId], fees);
    var i := currBlockIdx - 1;
    while i >= 0
      invariant -1 <= i < currBlockIdx
      invariant Refund(accs, filename, LogBetween(nds, 0, i + 1), fees) == target
    {
      var b := nds[i];
      if b.kind.Regular? {
        CountedBlock(nds, i);
        accs, stop := RefundWithinBlock(accs, filename, fees, b.records, |b.records|, LogBetween(nds, 0, i));
        if stop {
          return;
        }
      } else {
        SkippedBlock(nds, i);
      }
      i := i - 1;
    }
  }

  lemma {:induction false} SettleOpsFails(accs: Accounts, ops: seq<BlockOp>, i: nat, log: seq<BlockOp>, fees: Fees)
    requires i <= |ops| && SettleOps(accs, ops[..i], log, fees).None?
    ensures SettleOps(accs, ops, log, fees).None?
  {
    if i < |ops| {
      assert ops[..|ops| - 1][..i] == ops[..i];
      SettleOpsFails(accs, ops[..|ops| - 1], i, log, fees);
    } else {
      assert ops[..i] == ops;
    }
  }

  lemma {:induction false} BalancesUpToFails(chain: seq<Block>, i: nat, n: nat, fees: Fees)
    requires i <= n <= |chain| && BalancesUpTo(chain, i, fees).None?
    ensures BalancesUpTo(chain, n, fees).None?
    decreases n
  {
    if i < n {
      BalancesUpToFails(chain, i, n - 1, fees);
    }
  }

  method EvaluateBalanceBlockOps(accounts: Accounts, bcs: seq<BlockOp>, fees: Fees, nds: seq<Block>, currBlockIdx: nat)
    returns (r: Option<Accounts>)
    requires currBlockIdx < |nds| && nds[currBlockIdx].records == bcs
    ensures r == SettleOps(accounts, bcs, LogBetween(nds, 0, currBlockIdx), fees)
  {
    hide Refund, LogBetween, Spend;
    var accs := accounts;
    ghost var log := LogBetween(nds, 0, currBlockIdx);
    for idx := 0 to |bcs|
      invariant SettleOps(accounts, bcs[..idx], log, fees) == Some(accs)
    {
      var tx := bcs[idx];
      assert bcs[..idx + 1][..idx] == bcs[..idx];
      if SettleOps(accounts, bcs[..idx + 1], log, fees).None? {
        SettleOpsFails(accounts, bcs, idx + 1, log, fees);
      }
      match tx.kind {
        case CreateFile =>
          var paid := Spend(accs, tx.creator, fees.create);
          if paid.None? {
            return None;
          }
          accs := paid.value;
        case AppendFile =>
          var paid := Spend(accs, tx.creator, fees.append);
          if paid.None? {
            return None;
          }
          accs := paid.value;
        case DeleteFile =>
          accs := RefundOnChain(accs, tx.filename, fees, nds, currBlockIdx, idx);
        case UnknownOp =>
          return None;
      }
    }
    assert bcs[..|bcs|] == bcs;
    return Some(accs);
  }

  method GenerateState(fees: Fees, nodes: seq<Block>) returns (r: Option<Accounts>)
    ensures r == Balances(nodes, fees)
  {
    var res: Accounts := map[];
    if |nodes| == 0 {
      return Some(res);
    }
    if !nodes[0].kind.Genesis? {
      return None;
    }
    for idx := 0 to |nodes|
      invariant BalancesUpTo(nodes, idx, fees) == Some(res)
    {
      var b := nodes[idx];
      if BalancesUpTo(nodes, idx + 1, fees).None? {
        BalancesUpToFails(nodes, idx + 1, |nodes|, fees);
      }
      match b.kind {
        case Genesis =>
          if idx != 0 {
            return None;
          }
        case Regular =>
          res := Award(res, b.minerId, fees.opReward);
          var next := EvaluateBalanceBlockOps(res, b.records, fees, nodes, idx);
          if next.None? {
            return None;
          }
          res := next.value;
        case NoOp =>
          res := Award(res, b.minerId, fees.noOpReward);
      }
    }
    return Some(res);
  }

  // ---------- Extending a chain by one block ----------

  lemma GenesisLeavesNoAccounts(chain: seq<Block>, fees: Fees)
    requires chain != [] && chain[0].kind.Genesis?
    ensures BalancesUpTo(chain, 1, fees) == Some(map[])
  {
    assert BalancesUpTo(chain, 0, fees) == Some(map[]);
  }

  lemma {:induction false} BalancesUpToPrefix(chain: seq<Block>, longer: seq<Block>, n: nat, fees: Fees)
    requires chain <= longer && n <= |chain|
    ensures BalancesUpTo(longer, n, fees) == BalancesUpTo(chain, n, fees)
    decreases n
  {
    if n > 0 {
      BalancesUpToPrefix(chain, longer, n - 1, fees);
      LogOfPrefix(chain, longer, 0, n - 1);
    }
  }

  lemma BalancesSnoc(chain: seq<Block>, b: Block, fees: Fees)
    requires chain != []
    ensures Balances(chain + [b], fees) ==
            (match Balances(chain, fees) case None => None
             case Some(accs) => SettleBlock(accs, b, |chain|, Log(chain), fees))
  {
    BalancesUpToPrefix(chain, chain + [b], |chain|, fees);
    LogOfPrefix(chain, chain + [b], 0, |chain|);
  }
}
