/**
 Where the validator and replay part: blocks that a miner's tree accepts although replay refuses
 them, or that leave the cache with another state than replay. Each case is a run of the tree.
 */
module Divergence {
  import opened Wrappers
  import opened Blocks
  import opened Mining
  import opened Chains
  import opened FileSystemState
  import opened AccountsState
  import opened Conservation
  import opened Overlay
  import opened Deltas
  import opened ConfirmedView
  import opened Ledger
  import opened Safety

  // ---------- Blocks with a single creation ----------

  // A block whose only record creates file `n` for account `a`.
  predicate CreatesFor(b: Block, prev: Digest, n: Name, a: Name) {
    && b.prev == prev && |n| <= MAX_FILENAME_LENGTH
    && |b.records| == 1 && b.records[0].kind.CreateFile? && b.records[0].filename == n && b.records[0].creator == a
  }

  lemma OneCreation(fs: Files, ops: seq<BlockOp>)
    requires |ops| == 1 && ops[0].kind.CreateFile? && |ops[0].filename| <= MAX_FILENAME_LENGTH
    ensures ApplyOps(fs, ops, true, true) == ApplyOp(fs, ops[0], true, true)
    ensures forall ca: bool :: ApplyOps(fs, ops, false, ca) == Some(fs)
    ensures forall ca: bool :: ops[0].filename in fs ==> ApplyOps(fs, ops, true, ca).None?
    ensures ops[0].filename !in fs ==> ScanFs(fs, ops).ok
  {
    assert ops[..0] == [];
    ScanHasLast(fs, ops, 0);
  }

  lemma OnePayment(accs: Accounts, ops: seq<BlockOp>, log: seq<BlockOp>, start: Accounts, fees: Fees)
    requires |ops| == 1 && ops[0].kind.CreateFile?
    ensures SettleOps(accs, ops, log, fees) == Spend(accs, ops[0].creator, fees.create)
    ensures BalanceOf(accs, ops[0].creator) + BalanceOf(start, ops[0].creator) >= fees.create ==>
              ScanAccounts(accs, ops, Some(log), start, fees).ok
  {
    assert ops[..0] == [];
    assert SettleOps(accs, ops[..0], log, fees) == Some(accs);
    assert ScanAccounts(accs, ops[..0], Some(log), start, fees) == AccountScan(start, [], true, false);
  }

  // ---------- Adding blocks ----------

  lemma AddFirst(cfg: Config, g: Block)
    requires g.kind.Genesis?
    ensures Add(cfg, EMPTY, g) == (Ledger(map[IdOf(cfg, g) := [g]], None), true)
  {
  }

  lemma AddOnTop(cfg: Config, l: Ledger, b: Block)
    requires !b.kind.Genesis? && IdOf(cfg, b) !in l.chains && b.prev in l.chains
    requires ValidBlock(cfg.md5, b, cfg.opZeros, cfg.noOpZeros)
    requires Load(cfg, l, b.prev).Some? && Judge(cfg, Load(cfg, l, b.prev).value, b, Log(l.chains[b.prev])).Some?
    ensures Add(cfg, l, b) == (Ledger(l.chains[IdOf(cfg, b) := l.chains[b.prev] + [b]],
                                      Judge(cfg, Load(cfg, l, b.prev).value, b, Log(l.chains[b.prev]))), true)
  {
  }

  lemma GenesisIsEmpty(cfg: Config, g: Block)
    requires g.kind.Genesis?
    ensures Balances([g], cfg.fees) == Some(map[]) && FullFilesystem([g]) == Some(map[])
    ensures Filesystem([g], cfg.confirmsCreate, cfg.confirmsAppend) == Some(map[])
  {
    GenesisLeavesNoAccounts([g], cfg.fees);
    GenesisLeavesNoFiles([g], 1, 1);
    GenesisLeavesNoFiles([g], 1 - cfg.confirmsCreate, 1 - cfg.confirmsAppend);
  }

  // A block on a genesis block that nothing was loaded from yet, or on one that is not cached.
  lemma AddOnGenesis(cfg: Config, l: Ledger, g: Block, b: Block)
    requires g.kind.Genesis? && IdOf(cfg, g) in l.chains && l.chains[IdOf(cfg, g)] == [g]
    requires !CachedUnder(l, IdOf(cfg, g))
    requires !b.kind.Genesis? && b.prev == IdOf(cfg, g) && IdOf(cfg, b) !in l.chains
    requires ValidBlock(cfg.md5, b, cfg.opZeros, cfg.noOpZeros)
    requires Judge(cfg, Cache(IdOf(cfg, g), map[], map[]), b, Log([g])).Some?
    ensures Add(cfg, l, b) == (Ledger(l.chains[IdOf(cfg, b) := [g, b]],
                                      Judge(cfg, Cache(IdOf(cfg, g), map[], map[]), b, Log([g]))), true)
  {
    GenesisIsEmpty(cfg, g);
    assert Load(cfg, l, b.prev) == Some(Cache(IdOf(cfg, g), map[], map[]));
    AddOnTop(cfg, l, b);
    assert [g] + [b] == [g, b];
  }

  // From a coherent cache, a block is added when the extended chain replays.
  lemma AddReplayed(cfg: Config, l: Ledger, b: Block)
    requires !b.kind.Genesis? && IdOf(cfg, b) !in l.chains && b.prev in l.chains && l.chains[b.prev] != []
    requires ValidBlock(cfg.md5, b, cfg.opZeros, cfg.noOpZeros) && NoOpIsEmpty(b)
    requires Load(cfg, l, b.prev).Some? && CacheIs(cfg, Load(cfg, l, b.prev).value, l.chains[b.prev])
    requires Replays(cfg, l.chains[b.prev] + [b]) && NoAppendToFull(FullFilesystem(l.chains[b.prev]).value, b.records)
    ensures var (after, ok) := Add(cfg, l, b);
            && ok && after.chains == l.chains[IdOf(cfg, b) := l.chains[b.prev] + [b]]
            && CachedUnder(after, IdOf(cfg, b)) && CacheIs(cfg, after.cache.value, l.chains[b.prev] + [b])
  {
    hide Replays, CacheIs, NoAppendToFull, Load, WithinLimits;
    var c, state := l.chains[b.prev], Load(cfg, l, b.prev).value;
    JudgeIsReplay(cfg, c, state, b);
    assert WithinLimits(cfg, c + [b], |c| + 1) && Judge(cfg, state, b, Log(c)).Some?;
    AddOnTop(cfg, l, b);
  }

  lemma LoadsGenesis(cfg: Config, l: Ledger, g: Block)
    requires g.kind.Genesis? && IdOf(cfg, g) in l.chains && l.chains[IdOf(cfg, g)] == [g]
    requires !CachedUnder(l, IdOf(cfg, g))
    ensures Load(cfg, l, IdOf(cfg, g)) == Some(Cache(IdOf(cfg, g), map[], map[]))
    ensures CacheIs(cfg, Cache(IdOf(cfg, g), map[], map[]), [g]) && FullFilesystem([g]) == Some(map[])
  {
    GenesisIsEmpty(cfg, g);
  }

  lemma EmptyNoOpReplays(cfg: Config, c: seq<Block>, b: Block)
    requires c != [] && Replays(cfg, c) && b.kind.NoOp?
    ensures Replays(cfg, c + [b]) && FullFilesystem(c + [b]) == FullFilesystem(c)
  {
    FullFilesystemSnoc(c, b);
    BalancesSnoc(c, b, cfg.fees);
  }

  // A genesis block and a block on top of it that replays.
  lemma AddTwo(cfg: Config, g: Block, b: Block)
    requires g.kind.Genesis? && !b.kind.Genesis? && b.prev == IdOf(cfg, g) && IdOf(cfg, b) != IdOf(cfg, g)
    requires ValidBlock(cfg.md5, b, cfg.opZeros, cfg.noOpZeros) && NoOpIsEmpty(b) && Replays(cfg, [g, b])
    ensures var (l, ok) := Add(cfg, Add(cfg, EMPTY, g).0, b);
            && ok && l.chains == map[IdOf(cfg, g) := [g], IdOf(cfg, b) := [g, b]]
            && CachedUnder(l, IdOf(cfg, b)) && CacheIs(cfg, l.cache.value, [g, b])
  {
    hide Replays, CacheIs, ValidBlock;
    AddFirst(cfg, g);
    var l := Add(cfg, EMPTY, g).0;
    LoadsGenesis(cfg, l, g);
    assert [g] + [b] == [g, b];
    AddReplayed(cfg, l, b);
  }

  // ---------- A free operation of a stranger ----------

  // With free creations, the tree accepts a creation for an account that never mined, and the chain
  // does not replay: replay does not know the account.
  lemma FreeOpOfStranger(cfg: Config, g: Block, b: Block, n: Name, a: Name)
    requires cfg.fees.create == 0 && a != b.minerId
    requires g.kind.Genesis? && b.kind.Regular? && CreatesFor(b, IdOf(cfg, g), n, a)
    requires IdOf(cfg, b) != IdOf(cfg, g) && ValidBlock(cfg.md5, b, cfg.opZeros, cfg.noOpZeros)
    ensures var l := Add(cfg, EMPTY, g).0;
            Add(cfg, l, b).1 && Add(cfg, l, b).0.chains[IdOf(cfg, b)] == [g, b] && !Replays(cfg, [g, b])
  {
    AddFirst(cfg, g);
    OneCreation(map[], b.records);
    OnePayment(map[], b.records, Log([g]), RewardOf(cfg, b), cfg.fees);
    AddOnGenesis(cfg, Add(cfg, EMPTY, g).0, g, b);
    GenesisIsEmpty(cfg, g);
    BalancesSnoc([g], b, cfg.fees);
    OnePayment(Award(map[], b.minerId, cfg.fees.opReward), b.records, Log([g]), map[], cfg.fees);
    assert [g] + [b] == [g, b];
  }

  // ---------- NoOp blocks with records ----------

  lemma OpsWithoutDeleteGrow(fs: Files, ops: seq<BlockOp>)
    requires ops != [] && ApplyOps(fs, ops, true, true).Some?
    requires forall i :: 0 <= i < |ops| ==> !ops[i].kind.DeleteFile?
    ensures !SameShape(ApplyOps(fs, ops, true, true).value, fs)
  {
    var n := ops[0].filename;
    assert ops == [ops[0]] + ops[1..];
    ApplyOpsConcat(fs, [ops[0]], ops[1..], true, true);
    assert [ops[0]][..0] == [];
    assert ApplyOps(fs, [ops[0]], true, true) == ApplyOp(fs, ops[0], true, true);
    GrowsWithoutDelete(ApplyOp(fs, ops[0], true, true).value, ops[1..], n, true, true);
  }

  // A NoOp block with records: the validator charges and applies them, replay does not. An accepted
  // NoOp block that deletes nothing leaves the cache coherent exactly when it has no records.
  lemma NoOpRecordsDiverge(cfg: Config, c: seq<Block>, state: Cache, b: Block)
    requires c != [] && CacheIs(cfg, state, c) && b.kind.NoOp? && Judge(cfg, state, b, Log(c)).Some?
    requires NoLastRecord(b.records) && forall i :: 0 <= i < |b.records| ==> !b.records[i].kind.DeleteFile?
    ensures CacheIs(cfg, Judge(cfg, state, b, Log(c)).value, c + [b]) <==> b.records == []
  {
    if b.records == [] {
      JudgeIsReplay(cfg, c, state, b);
    } else {
      FullFilesystemSnoc(c, b);
      var files := FullFilesystem(c).value;
      OverlayAgreesWithReplay(state.files, files, b.records);
      OpsWithoutDeleteGrow(files, b.records);
    }
  }

  // What an account holds in fees after a log.
  ghost function Held(log: seq<BlockOp>, a: Name, fees: Fees): int
    requires Replayed(log).Some?
  {
    Sum(Replayed(log).value.Keys, FeesHeldAfter(log, Of(a), fees))
  }

  // The operations leave the same files with as many records, and every account holds the fees that
  // it held before.
  ghost predicate ChangesNothing(log: seq<BlockOp>, ops: seq<BlockOp>, fees: Fees) {
    && Replayed(log).Some? && Replayed(log + ops).Some?
    && SameShape(Replayed(log + ops).value, Replayed(log).value)
    && forall a :: Held(log + ops, a, fees) == Held(log, a, fees)
  }

  lemma BalancesStayIff(accs: Accounts, log: seq<BlockOp>, ops: seq<BlockOp>, fees: Fees)
    requires Replayed(log + ops).Some? && PaidFrom(log, accs.Keys) && SettleOps(accs, ops, log, fees).Some?
    ensures Replayed(log).Some?
    ensures SettleOps(accs, ops, log, fees).value == accs
       <==> forall a :: Held(log + ops, a, fees) == Held(log, a, fees)
  {
    var after := SettleOps(accs, ops, log, fees).value;
    OpsOpenNoAccount(accs, log, ops, fees);
    OpsKeepWealth(accs, log, ops, Everyone, fees);
    forall a ensures BalanceOf(after, a) + Held(log + ops, a, fees) == BalanceOf(accs, a) + Held(log, a, fees) {
      OpsKeepWealth(accs, log, ops, Of(a), fees);
    }
    if forall a :: Held(log + ops, a, fees) == Held(log, a, fees) {
      forall a | a in accs ensures after[a] == accs[a] {
        assert Held(log + ops, a, fees) == Held(log, a, fees);
        assert BalanceOf(after, a) == BalanceOf(accs, a);
      }
    }
  }

  // The state that the validator caches after an accepted NoOp block.
  lemma JudgedNoOp(cfg: Config, c: seq<Block>, state: Cache, b: Block)
    requires c != [] && CacheIs(cfg, state, c) && b.kind.NoOp? && Judge(cfg, state, b, Log(c)).Some?
    requires NoLastRecord(b.records) && PayersKnown(b.records, Miners(c + [b], |c| + 1), cfg.fees)
    ensures var start := Award(state.accounts, b.minerId, cfg.fees.noOpReward);
            && Replayed(Log(c)) == FullFilesystem(c) == FullFilesystem(c + [b])
            && Balances(c + [b], cfg.fees) == Some(start) && PaidFrom(Log(c), start.Keys)
            && Replayed(Log(c) + b.records).Some?
            && SameShape(Judge(cfg, state, b, Log(c)).value.files, Replayed(Log(c) + b.records).value)
            && SettleOps(start, b.records, Log(c), cfg.fees) == Some(Judge(cfg, state, b, Log(c)).value.accounts)
  {
    var files := FullFilesystem(c).value;
    FullFilesystemSnoc(c, b);
    BalancesSnoc(c, b, cfg.fees);
    RewardStart(cfg, c, state.accounts, b);
    OverlayAgreesWithReplay(state.files, files, b.records);
    ApplyOpsConcat(map[], Log(c), b.records, true, true);
    DeltasAgreeWithReplay(state.accounts, b.records, Log(c), RewardOf(cfg, b), cfg.fees);
  }

  // An accepted NoOp block, deletions included, leaves the cache coherent exactly when its records
  // change nothing: neither the files and their record counts, nor the fees that any account holds.
  lemma NoOpKeepsCacheIff(cfg: Config, c: seq<Block>, state: Cache, b: Block)
    requires c != [] && CacheIs(cfg, state, c) && b.kind.NoOp? && Judge(cfg, state, b, Log(c)).Some?
    requires NoLastRecord(b.records) && PayersKnown(b.records, Miners(c + [b], |c| + 1), cfg.fees)
    ensures CacheIs(cfg, Judge(cfg, state, b, Log(c)).value, c + [b]) <==> ChangesNothing(Log(c), b.records, cfg.fees)
  {
    hide Judge, Held, Replayed, Balances, FullFilesystem, SettleOps, PaidFrom, Log;
    JudgedNoOp(cfg, c, state, b);
    BalancesStayIff(Award(state.accounts, b.minerId, cfg.fees.noOpReward), Log(c), b.records, cfg.fees);
  }

  // A NoOp block with one creation.
  predicate NoOpCreation(cfg: Config, g: Block, b: Block, n: Name) {
    && g.kind.Genesis? && b.kind.NoOp? && CreatesFor(b, IdOf(cfg, g), n, b.minerId)
    && 0 <= cfg.fees.create <= cfg.fees.noOpReward
    && IdOf(cfg, b) != IdOf(cfg, g) && ValidBlock(cfg.md5, b, cfg.opZeros, cfg.noOpZeros)
  }

  lemma NoOpCreationIsJudged(cfg: Config, g: Block, b: Block, n: Name)
    requires NoOpCreation(cfg, g, b, n)
    ensures CacheIs(cfg, Cache(IdOf(cfg, g), map[], map[]), [g])
    ensures Judge(cfg, Cache(IdOf(cfg, g), map[], map[]), b, Log([g])).Some?
    ensures Replays(cfg, [g, b])
  {
    GenesisIsEmpty(cfg, g);
    OneCreation(map[], b.records);
    OnePayment(map[], b.records, Log([g]), RewardOf(cfg, b), cfg.fees);
    BalancesSnoc([g], b, cfg.fees);
    FullFilesystemSnoc([g], b);
    assert [g] + [b] == [g, b];
  }

  // The tree accepts it, and the cache is not the replay of its chain.
  lemma NoOpCreationIsAccepted(cfg: Config, g: Block, b: Block, n: Name)
    requires NoOpCreation(cfg, g, b, n)
    ensures var (l, ok) := Add(cfg, Add(cfg, EMPTY, g).0, b);
            ok && l.chains[IdOf(cfg, b)] == [g, b] && l.cache.Some? && l.cache.value.id == IdOf(cfg, b)
            && Replays(cfg, [g, b]) && !CacheIs(cfg, l.cache.value, [g, b])
  {
    hide Add, CacheIs, Replays, Log, ValidBlock;
    AddFirst(cfg, g);
    NoOpCreationIsJudged(cfg, g, b, n);
    AddOnGenesis(cfg, Add(cfg, EMPTY, g).0, g, b);
    NoOpRecordsDiverge(cfg, [g], Cache(IdOf(cfg, g), map[], map[]), b);
    assert [g] + [b] == [g, b];
  }
}
