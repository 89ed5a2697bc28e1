/** Chains of blocks, genesis first, and the flat log of operations that they carry. */
module Chains {
  import opened Blocks

  // Both replays read the records of regular blocks only.
  function RecordsOf(b: Block): seq<BlockOp> {
    if b.kind.Regular? then b.records else []
  }

  // The operations of the blocks from index i up to index j.
  function LogBetween(chain: seq<Block>, i: nat, j: nat): seq<BlockOp>
    requires i <= j <= |chain|
  {
    if i == j then [] else LogBetween(chain, i, j - 1) + RecordsOf(chain[j - 1])
  }

  function Log(chain: seq<Block>): seq<BlockOp> {
    LogBetween(chain, 0, |chain|)
  }

  // No block but the first is a genesis block.
  predicate GenesisOnlyFirst(chain: seq<Block>, n: nat)
    requires n <= |chain|
  {
    forall i :: 0 < i < n ==> !chain[i].kind.Genesis?
  }

  predicate GenesisFirst(chain: seq<Block>) {
    chain != [] && chain[0].kind.Genesis? && GenesisOnlyFirst(chain, |chain|)
  }

  lemma {:induction false} LogSplit(chain: seq<Block>, i: nat, j: nat, k: nat)
    requires i <= j <= k <= |chain|
    ensures LogBetween(chain, i, k) == LogBetween(chain, i, j) + LogBetween(chain, j, k)
    decreases k
  {
    if j < k {
      LogSplit(chain, i, j, k - 1);
    }
  }

  lemma {:induction false} LogOfPrefix(chain: seq<Block>, longer: seq<Block>, i: nat, j: nat)
    requires i <= j <= |chain| && chain <= longer
    ensures LogBetween(longer, i, j) == LogBetween(chain, i, j)
    decreases j
  {
    if i < j {
      LogOfPrefix(chain, longer, i, j - 1);
    }
  }

  lemma LogSnoc(chain: seq<Block>, b: Block)
    ensures Log(chain + [b]) == Log(chain) + RecordsOf(b)
  {
    LogOfPrefix(chain, chain + [b], 0, |chain|);
  }
}
