/** Whatever the miner does, every chain of its tree replays, and the cache is the replay of its chain. */
module Safety {
  import opened Wrappers
  import opened Blocks
  import opened Chains
  import opened FileSystemState
  import opened AccountsState
  import opened Conservation
  import opened Overlay
  import opened Deltas
  import opened Rebuild
  import opened Ledger

  // ---------- What the theorems are about ----------

  ghost predicate Replays(cfg: Config, c: seq<Block>) {
    Balances(c, cfg.fees).Some? && FullFilesystem(c).Some?
  }

  // The cached balances are those of replay, and the cached files are those of replay up to the
  // contents that the validator never reads.
  ghost predicate CacheIs(cfg: Config, state: Cache, c: seq<Block>) {
    && Balances(c, cfg.fees) == Some(state.accounts)
    && FullFilesystem(c).Some?
    && SameShape(state.files, FullFilesystem(c).value)
  }

  // Miners leave the records of a NoOp block empty: replay ignores them and the validator does not.
  predicate NoOpIsEmpty(b: Block) {
    b.kind.NoOp? ==> b.records == []
  }

  // The operations of the last block stay clear of the two limits on which validator and replay
  // differ: the last record number, and free operations of accounts that never mined.
  predicate WithinLimits(cfg: Config, c: seq<Block>, n: nat)
    requires 0 < n <= |c|
  {
    NoLastRecord(RecordsOf(c[n - 1])) && PayersKnown(RecordsOf(c[n - 1]), Miners(c, n), cfg.fees)
  }

  ghost predicate Plain(cfg: Config, c: seq<Block>) {
    forall i :: 0 <= i < |c| ==> NoOpIsEmpty(c[i]) && WithinLimits(cfg, c, i + 1)
  }

  // ---------- One block on top of a chain ----------

  lemma FullFilesystemSnoc(c: seq<Block>, b: Block)
    requires c != [] && FullFilesystem(c).Some? && !b.kind.Genesis?
    ensures FullFilesystem(c + [b]) == ApplyOps(FullFilesystem(c).value, RecordsOf(b), true, true)
    ensures Replayed(Log(c)) == FullFilesystem(c) && Replayed(Log(c) + RecordsOf(b)) == FullFilesystem(c + [b])
  {
    FullFilesystemIsReplayed(c);
    FullFilesystemIsReplayed(c + [b]);
    assert GenesisFirst(c + [b]);
    LogSnoc(c, b);
    ApplyOpsConcat(map[], Log(c), RecordsOf(b), true, true);
  }

  lemma {:induction false} MinersOfPrefix(c: seq<Block>, longer: seq<Block>, n: nat)
    requires c <= longer && n <= |c|
    ensures Miners(longer, n) == Miners(c, n)
    decreases n
  {
    if n > 0 {
      MinersOfPrefix(c, longer, n - 1);
    }
  }

  lemma PaidFromMore(log: seq<BlockOp>, accounts: set<Name>, more: set<Name>)
    requires PaidFrom(log, accounts) && accounts <= more
    ensures PaidFrom(log, more)
  {
  }

  // The starting point of the account check is the parent's balances with the reward awarded.
  lemma RewardStart(cfg: Config, c: seq<Block>, accs: Accounts, b: Block)
    requires c != [] && Balances(c, cfg.fees) == Some(accs) && FullFilesystem(c).Some? && !b.kind.Genesis?
    ensures AddDeltas(accs, RewardOf(cfg, b)) == Award(accs, b.minerId, Reward(b, cfg.fees))
    ensures AddDeltas(accs, RewardOf(cfg, b)).Keys == Miners(c + [b], |c| + 1)
    ensures PaidFrom(Log(c), Miners(c + [b], |c| + 1))
  {
    FullFilesystemIsReplayed(c);
    AccountsAreMiners(c, |c|, cfg.fees);
    MinersOfPrefix(c, c + [b], |c|);
    PaidFromMore(Log(c), Miners(c, |c|), Miners(c + [b], |c| + 1));
    AwardAddsDelta(accs, map[], b.minerId, Reward(b, cfg.fees));
    assert AddDeltas(accs, map[]) == accs;
  }

  lemma ShapeKeepsFullness(fs: Files, files: Files, ops: seq<BlockOp>)
    requires SameShape(fs, files)
    ensures NoAppendToFull(fs, ops) <==> NoAppendToFull(files, ops)
  {
  }

  lemma AccountsAgree(cfg: Config, c: seq<Block>, accs: Accounts, b: Block)
    requires c != [] && Balances(c, cfg.fees) == Some(accs) && FullFilesystem(c).Some?
    requires !b.kind.Genesis? && NoOpIsEmpty(b) && FullFilesystem(c + [b]).Some?
    ensures var t := ScanAccounts(accs, b.records, Some(Log(c)), RewardOf(cfg, b), cfg.fees);
            && (t.ok && PayersKnown(b.records, Miners(c + [b], |c| + 1), cfg.fees) <==>
                Balances(c + [b], cfg.fees).Some?)
            && (Balances(c + [b], cfg.fees).Some? ==> Balances(c + [b], cfg.fees) == Some(AddDeltas(accs, t.deltas)))
  {
    RewardStart(cfg, c, accs, b);
    FullFilesystemSnoc(c, b);
    BalancesSnoc(c, b, cfg.fees);
    if b.kind.Regular? {
      DeltasAgreeWithReplay(accs, b.records, Log(c), RewardOf(cfg, b), cfg.fees);
    }
  }

  lemma FilesAgree(c: seq<Block>, files: Files, b: Block)
    requires c != [] && FullFilesystem(c).Some? && SameShape(files, FullFilesystem(c).value)
    requires !b.kind.Genesis? && NoOpIsEmpty(b)
    ensures ScanFs(files, b.records).ok && NoLastRecord(b.records)
       <==> FullFilesystem(c + [b]).Some? && NoAppendToFull(FullFilesystem(c).value, b.records)
    ensures ScanFs(files, b.records).ok && NoLastRecord(b.records) ==>
              SameShape(Fold(files, ScanFs(files, b.records)), FullFilesystem(c + [b]).value)
  {
    FullFilesystemSnoc(c, b);
    OverlayAgreesWithReplay(files, FullFilesystem(c).value, b.records);
    ShapeKeepsFullness(files, FullFilesystem(c).value, b.records);
    assert RecordsOf(b) == b.records;
  }

  // From a coherent cache, the incremental check accepts a block within the limits exactly when the
  // extended chain replays and no append hits a file that is full in the parent; and then the updated
  // cache is the replay of the extended chain.
  lemma JudgeIsReplay(cfg: Config, c: seq<Block>, state: Cache, b: Block)
    requires c != [] && CacheIs(cfg, state, c) && !b.kind.Genesis? && NoOpIsEmpty(b)
    ensures Judge(cfg, state, b, Log(c)).Some? && WithinLimits(cfg, c + [b], |c| + 1)
       <==> Replays(cfg, c + [b]) && NoAppendToFull(FullFilesystem(c).value, b.records)
    ensures Judge(cfg, state, b, Log(c)).Some? && WithinLimits(cfg, c + [b], |c| + 1) ==>
              CacheIs(cfg, Judge(cfg, state, b, Log(c)).value, c + [b])
  {
    assert RecordsOf(b) == b.records;
    FilesAgree(c, state.files, b);
    if FullFilesystem(c + [b]).Some? {
      AccountsAgree(cfg, c, state.accounts, b);
    }
  }

  // ---------- Rebuilding the cache ----------

  // A rebuild for a chain that replays has the files and record counts of full replay. RebuildIsFullIff
  // in Rebuild says when that is so; in particular it is when every operation is confirmed.
  ghost predicate RebuildsAsReplay(cfg: Config, c: seq<Block>) {
    FullFilesystem(c).Some? ==>
      && Filesystem(c, cfg.confirmsCreate, cfg.confirmsAppend).Some?
      && SameShape(Filesystem(c, cfg.confirmsCreate, cfg.confirmsAppend).value, FullFilesystem(c).value)
  }

  lemma SettledRebuildsAsReplay(cfg: Config, c: seq<Block>)
    requires Settled(c, cfg.confirmsCreate, cfg.confirmsAppend)
    ensures RebuildsAsReplay(cfg, c)
  {
    SettledRebuildIsFull(c, cfg.confirmsCreate, cfg.confirmsAppend);
  }

  // ---------- The invariant ----------

  // A chain of the tree extends the chain of its parent, and only a genesis block stands alone.
  ghost predicate LinkedAt(cfg: Config, chains: map<Digest, seq<Block>>, id: Digest)
    requires id in chains
  {
    var c := chains[id];
    && GenesisFirst(c) && IdOf(cfg, c[|c| - 1]) == id
    && (|c| > 1 ==> c[|c| - 1].prev in chains && chains[c[|c| - 1].prev] == c[..|c| - 1])
  }

  ghost predicate OneGenesis(chains: map<Digest, seq<Block>>) {
    forall x, y :: x in chains && y in chains && |chains[x]| == 1 && |chains[y]| == 1 ==> x == y
  }

  ghost predicate Linked(cfg: Config, chains: map<Digest, seq<Block>>) {
    OneGenesis(chains) && forall id :: id in chains ==> LinkedAt(cfg, chains, id)
  }

  ghost predicate Safe(cfg: Config, l: Ledger) {
    && Linked(cfg, l.chains)
    && (l.chains == map[] ==> l.cache.None?)
    && (forall id :: id in l.chains && Plain(cfg, l.chains[id]) ==> Replays(cfg, l.chains[id]))
    && (l.cache.Some? && l.cache.value.id in l.chains && Plain(cfg, l.chains[l.cache.value.id]) ==>
          CacheIs(cfg, l.cache.value, l.chains[l.cache.value.id]))
  }

  // The node is cached, or a rebuild for it has the files of full replay.
  ghost predicate LoadsAsReplay(cfg: Config, l: Ledger, id: Digest) {
    id in l.chains && !CachedUnder(l, id) ==> RebuildsAsReplay(cfg, l.chains[id])
  }

  ghost predicate Orderly(cfg: Config, l: Ledger, step: Step) {
    match step
    case AddBlock(b) => LoadsAsReplay(cfg, l, b.prev)
    case CheckBlock(b) => LoadsAsReplay(cfg, l, b.prev)
    case FilterJobs(ops, head) => LoadsAsReplay(cfg, l, head)
  }

  ghost predicate OrderlyRun(cfg: Config, steps: seq<Step>) {
    forall i :: 0 <= i < |steps| ==> Orderly(cfg, Run(cfg, steps[..i]), steps[i])
  }

  // What is loaded for a chain within the limits is the replay of that chain.
  lemma LoadIsReplay(cfg: Config, l: Ledger, id: Digest)
    requires Safe(cfg, l) && id in l.chains && Plain(cfg, l.chains[id]) && LoadsAsReplay(cfg, l, id)
    ensures Load(cfg, l, id).Some? && Load(cfg, l, id).value.id == id
    ensures CacheIs(cfg, Load(cfg, l, id).value, l.chains[id])
  {
    assert Replays(cfg, l.chains[id]);
    assert CachedUnder(l, id) || RebuildsAsReplay(cfg, l.chains[id]);
  }

  lemma PlainPrefix(cfg: Config, c: seq<Block>, b: Block)
    requires Plain(cfg, c + [b])
    ensures Plain(cfg, c) && NoOpIsEmpty(b) && WithinLimits(cfg, c + [b], |c| + 1)
  {
    forall i | 0 <= i < |c| ensures NoOpIsEmpty(c[i]) && WithinLimits(cfg, c, i + 1) {
      assert (c + [b])[i] == c[i];
      assert WithinLimits(cfg, c + [b], i + 1);
      MinersOfPrefix(c, c + [b], i + 1);
    }
    assert (c + [b])[|c|] == b;
  }

  // Loading a state keeps the invariant.
  lemma LoadKeepsSafe(cfg: Config, l: Ledger, id: Digest)
    requires Safe(cfg, l) && id in l.chains && LoadsAsReplay(cfg, l, id) && Load(cfg, l, id).Some?
    ensures Safe(cfg, l.(cache := Load(cfg, l, id)))
  {
    hide Linked, Plain, Replays, CacheIs, LoadsAsReplay, Balances, Filesystem;
    if Plain(cfg, l.chains[id]) {
      LoadIsReplay(cfg, l, id);
    }
  }

  lemma NewIsLinked(cfg: Config, chains: map<Digest, seq<Block>>, b: Block)
    requires b.prev in chains && LinkedAt(cfg, chains, b.prev) && !b.kind.Genesis? && IdOf(cfg, b) !in chains
    ensures LinkedAt(cfg, chains[IdOf(cfg, b) := chains[b.prev] + [b]], IdOf(cfg, b))
  {
    var c := chains[b.prev];
    assert (c + [b])[..|c|] == c;
  }

  lemma OldStaysLinked(cfg: Config, chains: map<Digest, seq<Block>>, id: Digest, c: seq<Block>, i: Digest)
    requires i in chains && LinkedAt(cfg, chains, i) && id !in chains
    ensures LinkedAt(cfg, chains[id := c], i)
  {
  }

  lemma OneGenesisStays(chains: map<Digest, seq<Block>>, id: Digest, c: seq<Block>)
    requires OneGenesis(chains) && |c| > 1
    ensures OneGenesis(chains[id := c])
  {
  }

  lemma LinkedSnoc(cfg: Config, chains: map<Digest, seq<Block>>, b: Block)
    requires Linked(cfg, chains) && b.prev in chains && !b.kind.Genesis? && IdOf(cfg, b) !in chains
    ensures Linked(cfg, chains[IdOf(cfg, b) := chains[b.prev] + [b]])
  {
    var id, c := IdOf(cfg, b), chains[b.prev];
    assert LinkedAt(cfg, chains, b.prev);
    NewIsLinked(cfg, chains, b);
    OneGenesisStays(chains, id, c + [b]);
    forall i | i in chains ensures LinkedAt(cfg, chains[id := c + [b]], i) {
      OldStaysLinked(cfg, chains, id, c + [b], i);
    }
  }

  lemma AcceptedBlockReplays(cfg: Config, l: Ledger, b: Block)
    requires Safe(cfg, l) && b.prev in l.chains && !b.kind.Genesis? && LoadsAsReplay(cfg, l, b.prev)
    requires Plain(cfg, l.chains[b.prev] + [b])
    requires Load(cfg, l, b.prev).Some? && Judge(cfg, Load(cfg, l, b.prev).value, b, Log(l.chains[b.prev])).Some?
    ensures Replays(cfg, l.chains[b.prev] + [b])
    ensures CacheIs(cfg, Judge(cfg, Load(cfg, l, b.prev).value, b, Log(l.chains[b.prev])).value, l.chains[b.prev] + [b])
  {
    var c := l.chains[b.prev];
    PlainPrefix(cfg, c, b);
    LoadIsReplay(cfg, l, b.prev);
    JudgeIsReplay(cfg, c, Load(cfg, l, b.prev).value, b);
  }

  lemma ValidateKeepsSafe(cfg: Config, l: Ledger, b: Block)
    requires Safe(cfg, l) && Orderly(cfg, l, CheckBlock(b))
    ensures Safe(cfg, Validate(cfg, l, b).0)
  {
    if b.prev in l.chains && Load(cfg, l, b.prev).Some? {
      LoadKeepsSafe(cfg, l, b.prev);
    }
  }

  lemma GenesisReplays(cfg: Config, b: Block)
    requires b.kind.Genesis?
    ensures Replays(cfg, [b])
  {
    GenesisLeavesNoFiles([b], 1, 1);
    GenesisLeavesNoAccounts([b], cfg.fees);
  }

  lemma AddGenesisKeepsSafe(cfg: Config, l: Ledger, b: Block)
    requires Safe(cfg, l) && b.kind.Genesis? && Add(cfg, l, b).1
    ensures Safe(cfg, Add(cfg, l, b).0)
  {
    GenesisReplays(cfg, b);
    var after := Add(cfg, l, b).0;
    assert after == Ledger(map[IdOf(cfg, b) := [b]], None);
    assert LinkedAt(cfg, after.chains, IdOf(cfg, b));
  }

  lemma ExtensionIsSafe(cfg: Config, l: Ledger, id: Digest, c: seq<Block>, state: Cache)
    requires Safe(cfg, l) && Linked(cfg, l.chains[id := c]) && id !in l.chains && state.id == id
    requires Plain(cfg, c) ==> Replays(cfg, c) && CacheIs(cfg, state, c)
    ensures Safe(cfg, Ledger(l.chains[id := c], Some(state)))
  {
    var after := l.chains[id := c];
    forall i | i in after && Plain(cfg, after[i]) ensures Replays(cfg, after[i]) {
      assert i != id ==> after[i] == l.chains[i];
    }
  }

  lemma AddExtensionKeepsSafe(cfg: Config, l: Ledger, b: Block)
    requires Safe(cfg, l) && Orderly(cfg, l, AddBlock(b)) && !b.kind.Genesis? && Add(cfg, l, b).1
    ensures Safe(cfg, Add(cfg, l, b).0)
  {
    var id, c := IdOf(cfg, b), l.chains[b.prev];
    var state := Judge(cfg, Load(cfg, l, b.prev).value, b, Log(c)).value;
    assert Add(cfg, l, b).0 == Ledger(l.chains[id := c + [b]], Some(state));
    LinkedSnoc(cfg, l.chains, b);
    if Plain(cfg, c + [b]) {
      AcceptedBlockReplays(cfg, l, b);
    }
    ExtensionIsSafe(cfg, l, id, c + [b], state);
  }

  lemma AddKeepsSafe(cfg: Config, l: Ledger, b: Block)
    requires Safe(cfg, l) && Orderly(cfg, l, AddBlock(b))
    ensures Safe(cfg, Add(cfg, l, b).0)
  {
    if !Add(cfg, l, b).1 {
      ValidateKeepsSafe(cfg, l, b);
    } else if b.kind.Genesis? {
      AddGenesisKeepsSafe(cfg, l, b);
    } else {
      AddExtensionKeepsSafe(cfg, l, b);
    }
  }

  lemma StepKeepsSafe(cfg: Config, l: Ledger, step: Step)
    requires Safe(cfg, l) && Orderly(cfg, l, step)
    ensures Safe(cfg, Next(cfg, l, step))
  {
    match step
    case AddBlock(b) => AddKeepsSafe(cfg, l, b);
    case CheckBlock(b) => ValidateKeepsSafe(cfg, l, b);
    case FilterJobs(ops, head) =>
      if head in l.chains && Load(cfg, l, head).Some? {
        LoadKeepsSafe(cfg, l, head);
      }
  }

  lemma {:induction false} RunIsSafe(cfg: Config, steps: seq<Step>)
    requires OrderlyRun(cfg, steps)
    ensures Safe(cfg, Run(cfg, steps))
  {
    if steps != [] {
      var init := steps[..|steps| - 1];
      forall i | 0 <= i < |init| ensures Orderly(cfg, Run(cfg, init[..i]), init[i]) {
        assert init[..i] == steps[..i];
      }
      RunIsSafe(cfg, init);
      StepKeepsSafe(cfg, Run(cfg, init), steps[|steps| - 1]);
    }
  }
}
