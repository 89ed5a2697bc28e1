/** The limits of single operations, each at its boundary. */
module Limits {
  import opened Wrappers
  import opened Blocks
  import opened Chains
  import opened FileSystemState
  import opened AccountsState
  import opened Overlay

  // A fresh name can be created exactly when it has at most 64 bytes.
  lemma CreationIsLegalIff(fs: Files, op: BlockOp)
    requires op.kind.CreateFile? && op.filename !in fs
    ensures ApplyOp(fs, op, true, true).Some? <==> |op.filename| <= 64
    ensures OverlayOp(fs, map[], {}, op).Some? <==> |op.filename| <= 64
    ensures |op.filename| <= 64 ==> ApplyOp(fs, op, true, true) == Some(fs[op.filename := FileInfo(op.creator, 0, [])])
  {
  }

  // An append is legal exactly when the file exists with less than 65535 records and the append has
  // the next number; it adds 512 bytes.
  lemma AppendIsLegalIff(fs: Files, op: BlockOp)
    requires op.kind.AppendFile?
    ensures ApplyOp(fs, op, true, true).Some? <==>
            op.filename in fs && fs[op.filename].records < 65535 && op.recordNumber == fs[op.filename].records
    ensures OverlayOp(fs, map[], {}, op).Some? <==> ApplyOp(fs, op, true, true).Some?
    ensures ApplyOp(fs, op, true, true).Some? ==>
              && op.filename in ApplyOp(fs, op, true, true).value
              && |ApplyOp(fs, op, true, true).value[op.filename].data| == |fs[op.filename].data| + 512
  {
  }

  // An account can pay exactly what it has.
  lemma PaymentIsLegalIff(accs: Accounts, a: Name, fee: int)
    requires a in accs
    ensures Spend(accs, a, fee).Some? <==> fee <= accs[a]
    ensures Spend(accs, a, accs[a]) == Some(accs[a := 0])
  {
  }

  // A chain has balances only if its first block, and no other, is a genesis block.
  lemma {:induction false} BalancesNeedOneGenesis(chain: seq<Block>, n: nat, fees: Fees)
    requires n <= |chain| && BalancesUpTo(chain, n, fees).Some?
    ensures GenesisOnlyFirst(chain, n)
    decreases n
  {
    if n > 0 {
      BalancesNeedOneGenesis(chain, n - 1, fees);
    }
  }

  lemma BalancesNeedGenesisFirst(chain: seq<Block>, fees: Fees)
    requires chain != [] && Balances(chain, fees).Some?
    ensures GenesisFirst(chain)
  {
    BalancesNeedOneGenesis(chain, |chain|, fees);
  }
}
