/**
 What confirmation thresholds above 0 do to the tree: a rebuild of the cache forgets operations that
 are not confirmed yet, so the tree accepts blocks that no replay accepts, refuses blocks that every
 replay accepts, and treats the same block differently after different runs.
 */
module Thresholds {
  import opened Wrappers
  import opened Blocks
  import opened Mining
  import opened Chains
  import opened FileSystemState
  import opened AccountsState
  import opened Overlay
  import opened Deltas
  import opened ConfirmedView
  import opened Ledger
  import opened Safety
  import opened Runs
  import opened FilledFiles
  import opened Divergence

  // ---------- When a rebuild changes no verdict ----------

  ghost predicate SameVerdicts(cfg: Config, x: Cache, y: Cache, log: seq<BlockOp>) {
    forall b: Block :: Judge(cfg, x, b, log).Some? <==> Judge(cfg, y, b, log).Some?
  }

  lemma OneOpIsJudged(cfg: Config, state: Cache, b: Block, log: seq<BlockOp>)
    requires b.kind.Regular? && |b.records| == 1
    requires var op := b.records[0];
             op.kind.DeleteFile? ||
             (op.kind.AppendFile? && op.creator == b.minerId
              && BalanceOf(state.accounts, b.minerId) + cfg.fees.opReward >= cfg.fees.append)
    ensures Judge(cfg, state, b, log).Some? <==> OverlayOp(state.files, map[], {}, b.records[0]).Some?
  {
    var ops, start := b.records, RewardOf(cfg, b);
    assert ops[..0] == [];
    ScanHasLast(state.files, ops, 0);
    assert ScanAccounts(state.accounts, ops[..0], Some(log), start, cfg.fees) == AccountScan(start, [], true, false);
    assert ScanAccounts(state.accounts, ops, Some(log), start, cfg.fees).ok;
  }

  // A block that one of two different sets of files accepts and the other refuses: the deletion of a
  // file that only one has, or the append that follows the smaller number of records.
  lemma TellsApart(cfg: Config, x: Cache, y: Cache, log: seq<BlockOp>, n: Name, m: Name, zero: Digest, d: RecordData)
    requires x.accounts == y.accounts && BalanceOf(x.accounts, m) + cfg.fees.opReward >= cfg.fees.append
    requires n in x.files && (n in y.files ==> x.files[n].records < y.files[n].records)
    ensures !SameVerdicts(cfg, x, y, log)
  {
    hide Judge;
    var op := if n in y.files then BlockOp(AppendFile, m, n, x.files[n].records, d)
              else BlockOp(DeleteFile, m, n, 0, d);
    var b := Block(Regular, zero, [op], m, 0);
    OneOpIsJudged(cfg, x, b, log);
    OneOpIsJudged(cfg, y, b, log);
    assert Judge(cfg, x, b, log).Some? && !Judge(cfg, y, b, log).Some?;
  }

  // Two caches with the same balances give the same verdict on every block exactly when their files
  // have the same names and record counts, provided some account can pay for an append out of a reward.
  lemma SameVerdictsIff(cfg: Config, x: Cache, y: Cache, log: seq<BlockOp>, m: Name, zero: Digest, d: RecordData)
    requires x.accounts == y.accounts && BalanceOf(x.accounts, m) + cfg.fees.opReward >= cfg.fees.append
    ensures SameVerdicts(cfg, x, y, log) <==> SameShape(x.files, y.files)
  {
    if SameShape(x.files, y.files) {
      forall b: Block ensures Judge(cfg, x, b, log).Some? <==> Judge(cfg, y, b, log).Some? {
        ScanSeesOnlyShape(x.files, y.files, b.records);
      }
    } else if n :| n in x.files && (n in y.files ==> x.files[n].records < y.files[n].records) {
      TellsApart(cfg, x, y, log, n, m, zero, d);
    } else {
      var n :| n in y.files && (n in x.files ==> y.files[n].records < x.files[n].records);
      TellsApart(cfg, y, x, log, n, m, zero, d);
      assert !SameVerdicts(cfg, x, y, log);
    }
  }

  // On a node whose chain replays and whose rebuild succeeds, the rebuilt cache and the replayed one
  // judge every block alike exactly when the rebuild has the files and record counts of full replay
  // (`RebuildIsFullIff` says when that is).
  lemma RebuildChangesNoVerdictIff(cfg: Config, l: Ledger, id: Digest, m: Name, d: RecordData)
    requires id in l.chains && l.chains[id] != [] && Replays(cfg, l.chains[id]) && !CachedUnder(l, id)
    requires IdOf(cfg, l.chains[id][|l.chains[id]| - 1]) == id
    requires Filesystem(l.chains[id], cfg.confirmsCreate, cfg.confirmsAppend).Some?
    requires BalanceOf(Balances(l.chains[id], cfg.fees).value, m) + cfg.fees.opReward >= cfg.fees.append
    ensures Load(cfg, l, id).Some?
    ensures SameVerdicts(cfg, Load(cfg, l, id).value, ReplayedState(cfg, l.chains[id]), Log(l.chains[id])) <==>
            SameShape(Filesystem(l.chains[id], cfg.confirmsCreate, cfg.confirmsAppend).value,
                      FullFilesystem(l.chains[id]).value)
  {
    hide Balances, Filesystem, FullFilesystem, SameVerdicts, SameShape;
    SameVerdictsIff(cfg, Load(cfg, l, id).value, ReplayedState(cfg, l.chains[id]), Log(l.chains[id]), m, id, d);
  }

  // ---------- A sibling moves the cache away ----------

  // Two blocks on a genesis block, one on top of the other, and an empty sibling of the lower one.
  ghost predicate SiblingRun(cfg: Config, g: Block, first: Block, sibling: Block, second: Block) {
    && g.kind.Genesis? && first.kind.Regular? && sibling.kind.NoOp? && second.kind.Regular?
    && first.prev == IdOf(cfg, g) && sibling.prev == IdOf(cfg, g) && second.prev == IdOf(cfg, first)
    && sibling.records == []
    && IdOf(cfg, g) != IdOf(cfg, first) && IdOf(cfg, g) != IdOf(cfg, sibling) && IdOf(cfg, g) != IdOf(cfg, second)
    && IdOf(cfg, first) != IdOf(cfg, sibling) && IdOf(cfg, first) != IdOf(cfg, second)
    && IdOf(cfg, sibling) != IdOf(cfg, second)
    && ValidBlock(cfg.md5, first, cfg.opZeros, cfg.noOpZeros)
    && ValidBlock(cfg.md5, sibling, cfg.opZeros, cfg.noOpZeros)
    && ValidBlock(cfg.md5, second, cfg.opZeros, cfg.noOpZeros)
  }

  ghost function AfterSibling(cfg: Config, g: Block, first: Block, sibling: Block): Ledger {
    Add(cfg, Add(cfg, Add(cfg, EMPTY, g).0, first).0, sibling).0
  }

  lemma FirstThree(cfg: Config, g: Block, first: Block, sibling: Block, second: Block)
    requires SiblingRun(cfg, g, first, sibling, second) && Replays(cfg, [g, first])
    ensures var l := AfterSibling(cfg, g, first, sibling);
            && l.chains == map[IdOf(cfg, g) := [g], IdOf(cfg, first) := [g, first], IdOf(cfg, sibling) := [g, sibling]]
            && !CachedUnder(l, IdOf(cfg, first))
  {
    hide Replays, CacheIs, ValidBlock;
    AddTwo(cfg, g, first);
    var l := Add(cfg, Add(cfg, EMPTY, g).0, first).0;
    LoadsGenesis(cfg, l, g);
    GenesisReplays(cfg, g);
    EmptyNoOpReplays(cfg, [g], sibling);
    assert [g] + [sibling] == [g, sibling];
    AddReplayed(cfg, l, sibling);
  }

  // A block on an uncached node is judged against a rebuild, and added if that accepts it.
  lemma SecondOnLedger(cfg: Config, l: Ledger, g: Block, first: Block, second: Block, accs: Accounts, files: Files)
    requires second.kind.Regular? && second.prev == IdOf(cfg, first) && IdOf(cfg, second) !in l.chains
    requires second.prev in l.chains && l.chains[second.prev] == [g, first] && !CachedUnder(l, second.prev)
    requires ValidBlock(cfg.md5, second, cfg.opZeros, cfg.noOpZeros)
    requires Balances([g, first], cfg.fees) == Some(accs)
    requires Filesystem([g, first], cfg.confirmsCreate, cfg.confirmsAppend) == Some(files)
    requires Judge(cfg, Cache(IdOf(cfg, first), accs, files), second, Log([g, first])).Some?
    ensures Add(cfg, l, second).1 && Add(cfg, l, second).0.chains[IdOf(cfg, second)] == [g, first, second]
  {
    hide ValidBlock, Balances, Filesystem, Log, Judge, Add;
    assert Load(cfg, l, second.prev) == Some(Cache(IdOf(cfg, first), accs, files));
    AddOnTop(cfg, l, second);
    assert [g, first] + [second] == [g, first, second];
  }

  lemma SecondOnRebuild(cfg: Config, g: Block, first: Block, sibling: Block, second: Block, accs: Accounts,
                        files: Files)
    requires SiblingRun(cfg, g, first, sibling, second) && Replays(cfg, [g, first])
    requires Balances([g, first], cfg.fees) == Some(accs)
    requires Filesystem([g, first], cfg.confirmsCreate, cfg.confirmsAppend) == Some(files)
    requires Judge(cfg, Cache(IdOf(cfg, first), accs, files), second, Log([g, first])).Some?
    ensures var (l, ok) := Add(cfg, AfterSibling(cfg, g, first, sibling), second);
            ok && l.chains[IdOf(cfg, second)] == [g, first, second]
  {
    hide Replays, ValidBlock, Balances, Filesystem, AfterSibling, Log, Judge, Add;
    FirstThree(cfg, g, first, sibling, second);
    SecondOnLedger(cfg, AfterSibling(cfg, g, first, sibling), g, first, second, accs, files);
  }

  // Full replay fails, and a rebuild fails once the third block has `confirms` confirmations.
  ghost predicate NeverReplays(cfg: Config, c: seq<Block>, confirms: int) {
    && FullFilesystem(c).None?
    && (|c| - 3 >= confirms ==> Filesystem(c, cfg.confirmsCreate, cfg.confirmsAppend).None?)
  }

  lemma ThirdBlockFails(c: seq<Block>, creates: int, appends: int)
    requires |c| >= 3 && c[0].kind.Genesis? && c[1].kind.Regular? && c[2].kind.Regular?
    requires ApplyOps(map[], c[1].records, 1 < creates, 1 < appends).Some?
    requires ApplyOps(ApplyOps(map[], c[1].records, 1 < creates, 1 < appends).value,
                      c[2].records, 2 < creates, 2 < appends).None?
    ensures FilesUpTo(c, |c|, creates, appends).None?
  {
    GenesisLeavesNoFiles(c, creates, appends);
    FilesUpToFails(c, 3, |c|, creates, appends);
  }

  // ---------- Two blocks that fill a file ----------

  lemma FirstReplays(cfg: Config, g: Block, b: Block, n: Name, d: RecordData, k: nat)
    requires g.kind.Genesis? && b.kind.Regular? && |n| <= MAX_FILENAME_LENGTH && k <= MAX_RECORD_COUNT
    requires b.records == Fill(n, b.minerId, d, k)
    requires cfg.fees.create >= 0 && cfg.fees.append >= 0 && FeesOf(b.records, cfg.fees) <= cfg.fees.opReward
    ensures Replays(cfg, [g, b]) && FullFilesystem([g, b]) == Replayed(b.records)
    ensures HasOnly(FullFilesystem([g, b]).value, n, k)
    ensures Balances([g, b], cfg.fees) == Some(map[b.minerId := cfg.fees.opReward - FeesOf(b.records, cfg.fees)])
  {
    hide Fill, HasOnly, PaidBy, FeesOf, SettleOps, Log, Filesystem;
    GenesisIsEmpty(cfg, g);
    assert [g] + [b] == [g, b];
    FullFilesystemSnoc([g], b);
    FillReplays(n, b.minerId, d, k);
    FillPaidBy(n, b.minerId, d, k);
    var start: Accounts := map[b.minerId := cfg.fees.opReward];
    assert Award(map[], b.minerId, cfg.fees.opReward) == start;
    PaysAll(start, b.records, Log([g]), b.minerId, cfg.fees);
    BalancesSnoc([g], b, cfg.fees);
    var left := cfg.fees.opReward - FeesOf(b.records, cfg.fees);
    assert start[b.minerId := left] == map[b.minerId := left];
  }

  // The fees are affordable for both blocks.
  predicate Affordable(cfg: Config, first: Block, second: Block) {
    && cfg.fees.create >= 0 && cfg.fees.append >= 0
    && FeesOf(first.records, cfg.fees) <= cfg.fees.opReward && FeesOf(second.records, cfg.fees) <= cfg.fees.opReward
  }

  // The account check of the second block, from balances without debts.
  lemma SecondPays(cfg: Config, accs: Accounts, b: Block, log: seq<BlockOp>)
    requires b.kind.Regular? && PaidBy(b.records, b.minerId) && BalanceOf(accs, b.minerId) >= 0
    requires cfg.fees.create >= 0 && cfg.fees.append >= 0 && FeesOf(b.records, cfg.fees) <= cfg.fees.opReward
    ensures ScanAccounts(accs, b.records, Some(log), RewardOf(cfg, b), cfg.fees).ok
  {
    ScansAll(accs, b.records, log, RewardOf(cfg, b), b.minerId, cfg.fees);
  }

  // ---------- A creation threshold above 0 ----------

  // Both blocks create file `n`.
  ghost predicate DuplicateRun(cfg: Config, g: Block, first: Block, sibling: Block, second: Block, n: Name,
                               d: RecordData) {
    && SiblingRun(cfg, g, first, sibling, second) && |n| <= MAX_FILENAME_LENGTH && Affordable(cfg, first, second)
    && first.records == Fill(n, first.minerId, d, 0) && second.records == Fill(n, second.minerId, d, 0)
  }

  // A rebuild forgets the creation in the last block.
  lemma CreationIsHidden(cfg: Config, g: Block, b: Block, n: Name, d: RecordData)
    requires cfg.confirmsCreate >= 1 && g.kind.Genesis? && b.kind.Regular? && b.records == Fill(n, b.minerId, d, 0)
    ensures Filesystem([g, b], cfg.confirmsCreate, cfg.confirmsAppend) == Some(map[])
  {
    var c, creates, appends := [g, b], 2 - cfg.confirmsCreate, 2 - cfg.confirmsAppend;
    GenesisLeavesNoFiles(c, creates, appends);
    assert b.records[..0] == [];
    assert ApplyOps(map[], b.records[..0], false, 1 < appends) == Some(map[]);
    assert FilesUpTo(c, 2, creates, appends) == ApplyOps(map[], b.records, false, 1 < appends);
  }

  lemma CreationApplies(files: Files, n: Name, a: Name, d: RecordData, ca: bool)
    requires |n| <= MAX_FILENAME_LENGTH
    ensures ApplyOps(files, Fill(n, a, d, 0), true, ca).None? <==> n in files
    ensures n !in files ==> n in ApplyOps(files, Fill(n, a, d, 0), true, ca).value
    ensures ScanFs(files, Fill(n, a, d, 0)).ok <==> n !in files
  {
    var ops := Fill(n, a, d, 0);
    ScanHasLast(files, ops, 0);
    assert ApplyOps(files, ops[..0], true, ca) == Some(files);
    assert ScanFs(files, ops[..0]) == EMPTY_SCAN;
  }

  lemma DuplicateNeverReplays(cfg: Config, g: Block, first: Block, sibling: Block, second: Block, n: Name,
                              d: RecordData, c: seq<Block>)
    requires DuplicateRun(cfg, g, first, sibling, second, n, d) && [g, first, second] <= c
    ensures NeverReplays(cfg, c, cfg.confirmsCreate)
  {
    assert c[0] == g && c[1] == first && c[2] == second;
    forall creates: int, appends: int | creates >= 3 ensures FilesUpTo(c, |c|, creates, appends).None? {
      CreationApplies(map[], n, first.minerId, d, 1 < appends);
      CreationApplies(ApplyOps(map[], first.records, true, 1 < appends).value, n, second.minerId, d, 2 < appends);
      ThirdBlockFails(c, creates, appends);
    }
  }

  // The tree accepts the second creation. From then on full replay of every extension fails, and so
  // does every rebuild for a chain on which the second creation counts.
  lemma UnsettledRebuildAcceptsDuplicate(cfg: Config, g: Block, first: Block, sibling: Block, second: Block, n: Name,
                                         d: RecordData)
    requires cfg.confirmsCreate >= 1 && DuplicateRun(cfg, g, first, sibling, second, n, d)
    ensures var (l, ok) := Add(cfg, AfterSibling(cfg, g, first, sibling), second);
            ok && l.chains[IdOf(cfg, second)] == [g, first, second] && Replays(cfg, [g, first])
    ensures forall longer: seq<Block> :: [g, first, second] <= longer ==> NeverReplays(cfg, longer, cfg.confirmsCreate)
  {
    hide NeverReplays, Replays, Balances, Filesystem, FullFilesystem, ApplyOps,
         ScanFs, ScanAccounts, Add, Log, ValidBlock;
    FirstReplays(cfg, g, first, n, d, 0);
    CreationIsHidden(cfg, g, first, n, d);
    CreationApplies(map[], n, second.minerId, d, true);
    FillPaidBy(n, second.minerId, d, 0);
    var accs: Accounts := map[first.minerId := cfg.fees.opReward - FeesOf(first.records, cfg.fees)];
    SecondPays(cfg, accs, second, Log([g, first]));
    SecondOnRebuild(cfg, g, first, sibling, second, accs, map[]);
    forall longer: seq<Block> | [g, first, second] <= longer ensures NeverReplays(cfg, longer, cfg.confirmsCreate) {
      DuplicateNeverReplays(cfg, g, first, sibling, second, n, d, longer);
    }
  }

  // The same two creations with a block between them that is refused: it deletes a file that the
  // genesis block does not have.
  ghost predicate RefusedRun(cfg: Config, g: Block, first: Block, refused: Block, second: Block, n: Name,
                             d: RecordData) {
    && g.kind.Genesis? && first.kind.Regular? && refused.kind.Regular? && second.kind.Regular?
    && first.prev == IdOf(cfg, g) && refused.prev == IdOf(cfg, g) && second.prev == IdOf(cfg, first)
    && |refused.records| == 1 && refused.records[0].kind.DeleteFile?
    && |n| <= MAX_FILENAME_LENGTH && Affordable(cfg, first, second)
    && first.records == Fill(n, first.minerId, d, 0) && second.records == Fill(n, second.minerId, d, 0)
    && IdOf(cfg, g) != IdOf(cfg, first) && IdOf(cfg, g) != IdOf(cfg, refused) && IdOf(cfg, g) != IdOf(cfg, second)
    && IdOf(cfg, first) != IdOf(cfg, refused) && IdOf(cfg, first) != IdOf(cfg, second)
    && ValidBlock(cfg.md5, first, cfg.opZeros, cfg.noOpZeros)
    && ValidBlock(cfg.md5, refused, cfg.opZeros, cfg.noOpZeros)
    && ValidBlock(cfg.md5, second, cfg.opZeros, cfg.noOpZeros)
  }

  lemma DeletionIsRefused(cfg: Config, g: Block, b: Block)
    requires |b.records| == 1 && b.records[0].kind.DeleteFile?
    ensures Judge(cfg, Cache(IdOf(cfg, g), map[], map[]), b, Log([g])).None?
  {
    assert b.records[..0] == [];
    ScanHasLast(map[], b.records, 0);
  }

  // The refused block is not stored, but the cache stays at its parent.
  lemma RefusedBlockMovesCache(cfg: Config, g: Block, first: Block, refused: Block)
    requires g.kind.Genesis? && first.kind.Regular? && refused.kind.Regular? && Replays(cfg, [g, first])
    requires first.prev == IdOf(cfg, g) && refused.prev == IdOf(cfg, g)
    requires |refused.records| == 1 && refused.records[0].kind.DeleteFile?
    requires IdOf(cfg, g) != IdOf(cfg, first) && IdOf(cfg, g) != IdOf(cfg, refused)
    requires IdOf(cfg, first) != IdOf(cfg, refused)
    requires ValidBlock(cfg.md5, first, cfg.opZeros, cfg.noOpZeros)
    requires ValidBlock(cfg.md5, refused, cfg.opZeros, cfg.noOpZeros)
    ensures var (l, ok) := Add(cfg, Add(cfg, Add(cfg, EMPTY, g).0, first).0, refused);
            && !ok && l.chains == map[IdOf(cfg, g) := [g], IdOf(cfg, first) := [g, first]]
            && CachedUnder(l, IdOf(cfg, g))
  {
    hide Replays, CacheIs, Judge;
    AddTwo(cfg, g, first);
    var l := Add(cfg, Add(cfg, EMPTY, g).0, first).0;
    LoadsGenesis(cfg, l, g);
    DeletionIsRefused(cfg, g, refused);
  }

  // So a refused block is enough for the tree to accept the second creation.
  lemma RefusedBlockLetsDuplicateIn(cfg: Config, g: Block, first: Block, refused: Block, second: Block, n: Name,
                                    d: RecordData)
    requires cfg.confirmsCreate >= 1 && RefusedRun(cfg, g, first, refused, second, n, d)
    ensures var (l, ok) := Add(cfg, Add(cfg, Add(cfg, EMPTY, g).0, first).0, refused);
            && !ok && Add(cfg, l, second).1 && Add(cfg, l, second).0.chains[IdOf(cfg, second)] == [g, first, second]
    ensures FullFilesystem([g, first, second]).None?
  {
    hide Replays, Balances, Filesystem, FullFilesystem, ApplyOps, ScanFs, ScanAccounts, Add, Log, ValidBlock;
    FirstReplays(cfg, g, first, n, d, 0);
    RefusedBlockMovesCache(cfg, g, first, refused);
    CreationIsHidden(cfg, g, first, n, d);
    CreationApplies(map[], n, second.minerId, d, true);
    FillPaidBy(n, second.minerId, d, 0);
    var accs: Accounts := map[first.minerId := cfg.fees.opReward - FeesOf(first.records, cfg.fees)];
    SecondPays(cfg, accs, second, Log([g, first]));
    var l := Add(cfg, Add(cfg, Add(cfg, EMPTY, g).0, first).0, refused).0;
    SecondOnLedger(cfg, l, g, first, second, accs, map[]);
    SecondCreationFails(cfg, g, first, second, n, d);
  }

  lemma SecondCreationFails(cfg: Config, g: Block, first: Block, second: Block, n: Name, d: RecordData)
    requires Replays(cfg, [g, first]) && HasOnly(FullFilesystem([g, first]).value, n, 0)
    requires second.kind.Regular? && second.records == Fill(n, second.minerId, d, 0) && |n| <= MAX_FILENAME_LENGTH
    ensures FullFilesystem([g, first, second]).None?
  {
    hide FullFilesystem, ApplyOps, Fill;
    FullFilesystemSnoc([g, first], second);
    CreationApplies(FullFilesystem([g, first]).value, n, second.minerId, d, true);
    assert [g, first] + [second] == [g, first, second];
  }

  // ---------- An append threshold above 0 ----------

  // The first block creates file `n` and appends record 0, the second one appends record 0 again.
  ghost predicate DoubleAppendRun(cfg: Config, g: Block, first: Block, sibling: Block, second: Block, n: Name,
                                  d: RecordData) {
    && SiblingRun(cfg, g, first, sibling, second) && |n| <= MAX_FILENAME_LENGTH && Affordable(cfg, first, second)
    && first.records == Fill(n, first.minerId, d, 1)
    && second.records == [BlockOp(AppendFile, second.minerId, n, 0, d)]
  }

  lemma AppendApplies(files: Files, op: BlockOp)
    requires op.kind.AppendFile? && op.recordNumber == 0 && op.filename in files
    ensures forall cc: bool :: ApplyOps(files, [op], cc, true).None? <==> files[op.filename].records != 0
    ensures ScanFs(files, [op]).ok <==> files[op.filename].records == 0
  {
    ScanHasLast(files, [op], 0);
    assert forall cc: bool :: ApplyOps(files, [op][..0], cc, true) == Some(files);
    assert ScanFs(files, [op][..0]) == EMPTY_SCAN;
  }

  // A rebuild keeps the file and forgets its record.
  lemma AppendIsHidden(cfg: Config, g: Block, b: Block, n: Name, d: RecordData)
    requires cfg.confirmsCreate <= 0 < cfg.confirmsAppend && |n| <= MAX_FILENAME_LENGTH
    requires g.kind.Genesis? && b.kind.Regular? && b.records == Fill(n, b.minerId, d, 1)
    ensures Filesystem([g, b], cfg.confirmsCreate, cfg.confirmsAppend) == Some(map[n := FileInfo(b.minerId, 0, [])])
  {
    var c, creates, appends := [g, b], 2 - cfg.confirmsCreate, 2 - cfg.confirmsAppend;
    var one := Fill(n, b.minerId, d, 0);
    GenesisLeavesNoFiles(c, creates, appends);
    assert b.records[..1] == one && one[..0] == [];
    assert ApplyOps(map[], one[..0], true, false) == Some(map[]);
    assert ApplyOps(map[], one, true, false) == Some(map[n := FileInfo(b.minerId, 0, [])]);
    assert FilesUpTo(c, 2, creates, appends) == ApplyOps(map[], b.records, true, false);
  }

  lemma DoubleAppendNeverReplays(cfg: Config, g: Block, first: Block, sibling: Block, second: Block, n: Name,
                                 d: RecordData, c: seq<Block>)
    requires cfg.confirmsCreate <= 0 < cfg.confirmsAppend
    requires DoubleAppendRun(cfg, g, first, sibling, second, n, d) && [g, first, second] <= c
    ensures NeverReplays(cfg, c, cfg.confirmsAppend)
  {
    assert c[0] == g && c[1] == first && c[2] == second;
    FillReplays(n, first.minerId, d, 1);
    AppendApplies(Replayed(first.records).value, second.records[0]);
    forall creates: int, appends: int | creates >= 3 && appends >= 3 ensures FilesUpTo(c, |c|, creates, appends).None? {
      ThirdBlockFails(c, creates, appends);
    }
  }

  // When creations need no confirmation and appends do, the tree accepts the second record 0, and the
  // same follows.
  lemma UnsettledRebuildAcceptsDoubleAppend(cfg: Config, g: Block, first: Block, sibling: Block, second: Block, n: Name,
                                            d: RecordData)
    requires cfg.confirmsCreate <= 0 < cfg.confirmsAppend && DoubleAppendRun(cfg, g, first, sibling, second, n, d)
    ensures var (l, ok) := Add(cfg, AfterSibling(cfg, g, first, sibling), second);
            ok && l.chains[IdOf(cfg, second)] == [g, first, second] && Replays(cfg, [g, first])
    ensures forall longer: seq<Block> :: [g, first, second] <= longer ==> NeverReplays(cfg, longer, cfg.confirmsAppend)
  {
    hide NeverReplays, Replays, Balances, Filesystem, FullFilesystem, ApplyOps,
         ScanFs, ScanAccounts, Add, Log, ValidBlock;
    FirstReplays(cfg, g, first, n, d, 1);
    AppendIsHidden(cfg, g, first, n, d);
    var files: Files := map[n := FileInfo(first.minerId, 0, [])];
    AppendApplies(files, second.records[0]);
    var accs: Accounts := map[first.minerId := cfg.fees.opReward - FeesOf(first.records, cfg.fees)];
    SecondPays(cfg, accs, second, Log([g, first]));
    SecondOnRebuild(cfg, g, first, sibling, second, accs, files);
    forall longer: seq<Block> | [g, first, second] <= longer ensures NeverReplays(cfg, longer, cfg.confirmsAppend) {
      DoubleAppendNeverReplays(cfg, g, first, sibling, second, n, d, longer);
    }
  }

  // ---------- A creation threshold above the append threshold ----------

  // After a failed rebuild the tree refuses every block on the node and nothing changes.
  lemma FailedRebuildRefuses(cfg: Config, l: Ledger, b: Block)
    requires b.prev in l.chains && !b.kind.Genesis? && !CachedUnder(l, b.prev)
    requires Filesystem(l.chains[b.prev], cfg.confirmsCreate, cfg.confirmsAppend).None?
    ensures Add(cfg, l, b) == (l, false)
  {
  }

  // A genesis block, a block that creates a file and appends to it, k empty blocks on top, and an empty
  // sibling on the genesis block.
  ghost predicate StackRun(cfg: Config, s: seq<Block>, k: nat, n: Name, d: RecordData) {
    && |s| == k + 3 && s[0].kind.Genesis? && s[1].kind.Regular? && |n| <= MAX_FILENAME_LENGTH
    && s[1].records == Fill(n, s[1].minerId, d, 1) && Affordable(cfg, s[1], s[1])
    && (forall i :: 1 <= i < k + 2 ==> s[i].prev == IdOf(cfg, s[i - 1])) && s[k + 2].prev == IdOf(cfg, s[0])
    && (forall i :: 2 <= i < k + 3 ==> s[i].kind.NoOp? && s[i].records == [])
    && (forall i :: 1 <= i < k + 3 ==> ValidBlock(cfg.md5, s[i], cfg.opZeros, cfg.noOpZeros))
    && (forall i, j :: 0 <= i < j < k + 3 ==> IdOf(cfg, s[i]) != IdOf(cfg, s[j]))
  }

  lemma FeedSnoc(cfg: Config, s: seq<Block>, m: nat)
    requires m < |s|
    ensures Feed(cfg, s[..m + 1]) == Add(cfg, Feed(cfg, s[..m]), s[m]).0
  {
    assert s[..m + 1][..m] == s[..m];
  }

  // The tree after the first m blocks: the last of them is the tip, and the state of its chain is cached.
  ghost predicate Stacked(cfg: Config, s: seq<Block>, m: nat)
    requires 0 < m <= |s|
  {
    var l, tip := Feed(cfg, s[..m]), IdOf(cfg, s[m - 1]);
    && (forall id :: id in l.chains ==> exists i :: 0 <= i < m && id == IdOf(cfg, s[i]))
    && IdOf(cfg, s[0]) in l.chains && l.chains[IdOf(cfg, s[0])] == [s[0]]
    && tip in l.chains && l.chains[tip] == s[..m]
    && CachedUnder(l, tip) && CacheIs(cfg, l.cache.value, s[..m]) && Replays(cfg, s[..m])
  }

  lemma StackStarts(cfg: Config, s: seq<Block>, k: nat, n: Name, d: RecordData)
    requires StackRun(cfg, s, k, n, d)
    ensures Stacked(cfg, s, 2)
  {
    hide Replays, CacheIs, ValidBlock, Add;
    FirstReplays(cfg, s[0], s[1], n, d, 1);
    AddTwo(cfg, s[0], s[1]);
    assert s[..0] == [] && s[..2] == [s[0], s[1]];
    FeedSnoc(cfg, s, 0);
    FeedSnoc(cfg, s, 1);
  }

  lemma IsNew(cfg: Config, s: seq<Block>, m: nat)
    requires 0 < m < |s| && Stacked(cfg, s, m)
    requires forall i :: 0 <= i < m ==> IdOf(cfg, s[i]) != IdOf(cfg, s[m])
    ensures IdOf(cfg, s[m]) !in Feed(cfg, s[..m]).chains
  {
  }

  lemma StackGrows(cfg: Config, s: seq<Block>, m: nat)
    requires 0 < m < |s| && Stacked(cfg, s, m) && s[m].kind.NoOp? && s[m].records == []
    requires s[m].prev == IdOf(cfg, s[m - 1]) && ValidBlock(cfg.md5, s[m], cfg.opZeros, cfg.noOpZeros)
    requires forall i :: 0 <= i < m ==> IdOf(cfg, s[i]) != IdOf(cfg, s[m])
    ensures Stacked(cfg, s, m + 1)
  {
    hide Replays, CacheIs, ValidBlock, Add, Feed;
    IsNew(cfg, s, m);
    assert s[..m] + [s[m]] == s[..m + 1];
    EmptyNoOpReplays(cfg, s[..m], s[m]);
    AddReplayed(cfg, Feed(cfg, s[..m]), s[m]);
    FeedSnoc(cfg, s, m);
  }

  lemma {:induction false} StackIsAccepted(cfg: Config, s: seq<Block>, k: nat, n: Name, d: RecordData, m: nat)
    requires StackRun(cfg, s, k, n, d) && 2 <= m <= k + 2
    ensures Stacked(cfg, s, m)
  {
    if m == 2 {
      StackStarts(cfg, s, k, n, d);
    } else {
      hide Stacked;
      StackIsAccepted(cfg, s, k, n, d, m - 1);
      StackGrows(cfg, s, m - 1);
    }
  }

  // The sibling on the genesis block is added and moves the cache away from the tip.
  lemma SiblingMovesCache(cfg: Config, s: seq<Block>, k: nat, n: Name, d: RecordData)
    requires StackRun(cfg, s, k, n, d) && Stacked(cfg, s, k + 2)
    ensures var l, tip := Feed(cfg, s), IdOf(cfg, s[k + 1]);
            tip in l.chains && l.chains[tip] == s[..k + 2] && !CachedUnder(l, tip)
  {
    hide Replays, CacheIs, ValidBlock, Add, Feed;
    var l, b := Feed(cfg, s[..k + 2]), s[k + 2];
    IsNew(cfg, s, k + 2);
    LoadsGenesis(cfg, l, s[0]);
    GenesisReplays(cfg, s[0]);
    EmptyNoOpReplays(cfg, [s[0]], b);
    AddReplayed(cfg, l, b);
    FeedSnoc(cfg, s, k + 2);
    assert s[..k + 3] == s;
  }

  lemma TipReplays(cfg: Config, s: seq<Block>, m: nat)
    requires 0 < m <= |s| && Stacked(cfg, s, m)
    ensures Replays(cfg, s[..m])
  {
  }

  lemma StackHasEarlyAppend(cfg: Config, s: seq<Block>, k: nat, n: Name, d: RecordData)
    requires StackRun(cfg, s, k, n, d)
    ensures IsCreateAndAppend(s[..k + 2], k)
  {
    hide ValidBlock, Affordable, IdOf;
    FillOne(n, s[1].minerId, d);
  }

  // With more confirmations for creations than for appends: after the run the chain of the tip replays,
  // and the tree refuses every block on top of it.
  lemma EarlyAppendBlocksTip(cfg: Config, s: seq<Block>, k: nat, n: Name, d: RecordData, b: Block)
    requires cfg.confirmsAppend <= k < cfg.confirmsCreate && StackRun(cfg, s, k, n, d)
    requires |s| == k + 3 && b.prev == IdOf(cfg, s[k + 1]) && !b.kind.Genesis?
    ensures var l := Feed(cfg, s);
            && b.prev in l.chains && l.chains[b.prev] == s[..k + 2] && Replays(cfg, l.chains[b.prev])
            && Add(cfg, l, b) == (l, false)
  {
    hide Stacked, StackRun, IsCreateAndAppend, Feed, Filesystem, FullFilesystem, Balances;
    StackIsAccepted(cfg, s, k, n, d, k + 2);
    TipReplays(cfg, s, k + 2);
    StackHasEarlyAppend(cfg, s, k, n, d);
    SiblingMovesCache(cfg, s, k, n, d);
    EarlyAppendFails(s[..k + 2], cfg.confirmsCreate, cfg.confirmsAppend, k);
    FailedRebuildRefuses(cfg, Feed(cfg, s), b);
  }
}
