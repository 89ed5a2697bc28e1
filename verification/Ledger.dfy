/**
 The block tree and the validator's cache as values, with one step for each call that the miner makes
 under its lock: adding a block, checking a block without adding it, and filtering pending jobs
 (miner/state/block_chain_validator.go, miner/state/tree_manager.go). The classes in
 BlockChainValidator.dfy and BlockChainTree.dfy carry out these steps on the heap.
 */
module Ledger {
  import opened Wrappers
  import opened Blocks
  import opened Mining
  import opened Chains
  import opened FileSystemState
  import opened AccountsState
  import opened Overlay
  import opened Deltas
  import opened JobSet

  datatype Config = Config(
    fees: Fees,
    opZeros: int,
    noOpZeros: int,
    confirmsCreate: int,
    confirmsAppend: int,
    md5: Hasher)

  // The state cached under `generatingNodeId`.
  datatype Cache = Cache(id: Digest, accounts: Accounts, files: Files)

  // Every node of the tree with its chain, genesis first. The cache is None while
  // `generatingNodeId` is the empty string, which is no block's id.
  datatype Ledger = Ledger(chains: map<Digest, seq<Block>>, cache: Option<Cache>)

  const EMPTY := Ledger(map[], None)

  function IdOf(cfg: Config, b: Block): Digest {
    Id(cfg.md5, b)
  }

  function CachedUnder(l: Ledger, id: Digest): bool {
    l.cache.Some? && l.cache.value.id == id
  }

  // The cached state, or a rebuild with the configured confirmation thresholds.
  function Load(cfg: Config, l: Ledger, id: Digest): Option<Cache>
    requires id in l.chains
  {
    if CachedUnder(l, id) then l.cache
    else
      var accounts :- Balances(l.chains[id], cfg.fees);
      var files :- Filesystem(l.chains[id], cfg.confirmsCreate, cfg.confirmsAppend);
      Some(Cache(id, accounts, files))
  }

  function RewardOf(cfg: Config, b: Block): Accounts {
    Award(map[], b.minerId, if b.kind.NoOp? then cfg.fees.noOpReward else cfg.fees.opReward)
  }

  // Both checks of a block against a cached state, whatever the kind of the block, and the state after it.
  function Judge(cfg: Config, state: Cache, b: Block, log: seq<BlockOp>): Option<Cache> {
    var s := ScanFs(state.files, b.records);
    var t := ScanAccounts(state.accounts, b.records, Some(log), RewardOf(cfg, b), cfg.fees);
    if s.ok && t.ok then Some(Cache(IdOf(cfg, b), AddDeltas(state.accounts, t.deltas), Fold(state.files, s))) else None
  }

  function Validate(cfg: Config, l: Ledger, b: Block): (Ledger, bool) {
    if IdOf(cfg, b) in l.chains then (l, false)
    else if b.kind.Genesis? then (l, l.chains == map[])
    else if !ValidBlock(cfg.md5, b, cfg.opZeros, cfg.noOpZeros) then (l, false)
    else if b.prev !in l.chains then (l, false)
    else
      var state := Load(cfg, l, b.prev);
      if state.None? then (l, false)
      else
        var next := Judge(cfg, state.value, b, Log(l.chains[b.prev]));
        if next.None? then (l.(cache := state), false) else (l.(cache := next), true)
  }

  function ChainOf(l: Ledger, b: Block): seq<Block> {
    if b.kind.Genesis? || b.prev !in l.chains then [b] else l.chains[b.prev] + [b]
  }

  function Add(cfg: Config, l: Ledger, b: Block): (Ledger, bool) {
    var (next, ok) := Validate(cfg, l, b);
    if ok then (next.(chains := l.chains[IdOf(cfg, b) := ChainOf(l, b)]), true) else (next, false)
  }

  // An addition changes the chains only by the new block's own.
  lemma AddChangesOneChain(cfg: Config, l: Ledger, b: Block)
    ensures Add(cfg, l, b).1 ==>
              IdOf(cfg, b) !in l.chains && Add(cfg, l, b).0.chains == l.chains[IdOf(cfg, b) := ChainOf(l, b)]
    ensures !Add(cfg, l, b).1 ==> Add(cfg, l, b).0.chains == l.chains
    ensures b.kind.Genesis? ==> (Add(cfg, l, b).1 <==> l.chains == map[])
    ensures !b.kind.Genesis? && b.prev !in l.chains ==> !Add(cfg, l, b).1
  {
  }

  // What a check leaves behind. A block that is refused before its parent's state is loaded, or whose
  // parent's state cannot be loaded, changes nothing. Once the state is loaded it stays cached under the
  // parent when the block is refused, and moves to the block when it is accepted.
  lemma CheckMovesCache(cfg: Config, l: Ledger, b: Block)
    ensures Validate(cfg, l, b).0.chains == l.chains
    ensures IdOf(cfg, b) in l.chains || b.kind.Genesis? || b.prev !in l.chains ==> Validate(cfg, l, b).0 == l
    ensures !b.kind.Genesis? && !ValidBlock(cfg.md5, b, cfg.opZeros, cfg.noOpZeros) ==>
              Validate(cfg, l, b) == (l, false)
    ensures !b.kind.Genesis? && b.prev in l.chains && Load(cfg, l, b.prev).None? ==> Validate(cfg, l, b) == (l, false)
    ensures !b.kind.Genesis? && IdOf(cfg, b) !in l.chains && b.prev in l.chains && Load(cfg, l, b.prev).Some?
            && ValidBlock(cfg.md5, b, cfg.opZeros, cfg.noOpZeros) ==>
              if Validate(cfg, l, b).1 then CachedUnder(Validate(cfg, l, b).0, IdOf(cfg, b))
              else Validate(cfg, l, b).0.cache == Load(cfg, l, b.prev) && CachedUnder(Validate(cfg, l, b).0, b.prev)
  {
  }

  function ValidateJobSet(cfg: Config, l: Ledger, ops: seq<BlockOp>, head: Digest): (Ledger, seq<BlockOp>)
    requires head in l.chains
  {
    if ops == [] then (l, ops)
    else
      var state := Load(cfg, l, head);
      if state.None? then (l, [])
      else (l.(cache := state),
            JobSet.FilterJobs(state.value.files, state.value.accounts, ops, Some(Log(l.chains[head])), cfg.fees))
  }

  // The tree after adding blocks one by one.
  function Feed(cfg: Config, s: seq<Block>): Ledger {
    if s == [] then EMPTY else Add(cfg, Feed(cfg, s[..|s| - 1]), s[|s| - 1]).0
  }

  // What a job filtering leaves behind: the state of the head is cached if it can be loaded, and no job
  // survives if it cannot.
  lemma FilterMovesCache(cfg: Config, l: Ledger, ops: seq<BlockOp>, head: Digest)
    requires head in l.chains
    ensures var (after, kept) := ValidateJobSet(cfg, l, ops, head);
            && after.chains == l.chains
            && (ops == [] ==> after == l && kept == [])
            && (ops != [] && Load(cfg, l, head).None? ==> after == l && kept == [])
            && (ops != [] && Load(cfg, l, head).Some? ==> CachedUnder(after, head) && after.cache == Load(cfg, l, head))
  {
  }

  datatype Step = AddBlock(b: Block) | CheckBlock(b: Block) | FilterJobs(ops: seq<BlockOp>, head: Digest)

  function Next(cfg: Config, l: Ledger, step: Step): Ledger {
    match step
    case AddBlock(b) => Add(cfg, l, b).0
    case CheckBlock(b) => Validate(cfg, l, b).0
    case FilterJobs(ops, head) => if head in l.chains then ValidateJobSet(cfg, l, ops, head).0 else l
  }

  function Run(cfg: Config, steps: seq<Step>): Ledger {
    if steps == [] then EMPTY else Next(cfg, Run(cfg, steps[..|steps| - 1]), steps[|steps| - 1])
  }
}
