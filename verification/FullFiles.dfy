/**
 Runs of the tree that reach the last record of a file, where the overlay and replay differ
 (miner/state/block_chain_validator.go:310-368).
 */
module FullFiles {
  import opened Wrappers
  import opened Blocks
  import opened Mining
  import opened Chains
  import opened FileSystemState
  import opened AccountsState
  import opened Overlay
  import opened Deltas
  import opened Ledger
  import opened Safety
  import opened FilledFiles
  import opened Divergence
  import opened Thresholds

  // A block that creates a file with k records on a genesis block, and a block on top of it.
  ghost predicate FillRun(cfg: Config, g: Block, b: Block, c: Block, n: Name, d: RecordData, k: nat)
    requires k <= MAX_RECORD_COUNT
  {
    && g.kind.Genesis? && b.kind.Regular? && c.kind.Regular? && |n| <= MAX_FILENAME_LENGTH
    && b.prev == IdOf(cfg, g) && c.prev == IdOf(cfg, b) && b.records == Fill(n, b.minerId, d, k)
    && IdOf(cfg, g) != IdOf(cfg, b) && IdOf(cfg, g) != IdOf(cfg, c) && IdOf(cfg, b) != IdOf(cfg, c)
    && ValidBlock(cfg.md5, b, cfg.opZeros, cfg.noOpZeros) && ValidBlock(cfg.md5, c, cfg.opZeros, cfg.noOpZeros)
    && cfg.fees.create >= 0 && cfg.fees.append >= 0 && FeesOf(b.records, cfg.fees) <= cfg.fees.opReward
  }

  // The tree with the filled file.
  lemma FilledTree(cfg: Config, g: Block, b: Block, c: Block, n: Name, d: RecordData, k: nat)
    requires k <= MAX_RECORD_COUNT && FillRun(cfg, g, b, c, n, d, k)
    ensures var l := Add(cfg, Add(cfg, EMPTY, g).0, b).0;
            && IdOf(cfg, c) !in l.chains && c.prev in l.chains && l.chains[c.prev] == [g, b]
            && Load(cfg, l, c.prev) == l.cache && l.cache.Some?
            && CacheIs(cfg, l.cache.value, [g, b]) && HasOnly(l.cache.value.files, n, k)
            && Replays(cfg, [g, b]) && HasOnly(FullFilesystem([g, b]).value, n, k)
            && l.cache.value.accounts == map[b.minerId := cfg.fees.opReward - FeesOf(b.records, cfg.fees)]
  {
    hide Add, ValidBlock, Balances, FullFilesystem, Fill, FeesOf;
    FirstReplays(cfg, g, b, n, d, k);
    AddTwo(cfg, g, b);
  }

  // The appends of records 65534 and 65535.
  function LastTwo(n: Name, a: Name, d: RecordData): seq<BlockOp> {
    [BlockOp(AppendFile, a, n, 0xFFFE, d), BlockOp(AppendFile, a, n, 0xFFFF, d)]
  }

  lemma LastTwoAreScanned(files: Files, n: Name, a: Name, d: RecordData)
    requires n in files && files[n].records == 0xFFFE
    ensures ScanFs(files, LastTwo(n, a, d)).ok
    ensures var after := Fold(files, ScanFs(files, LastTwo(n, a, d))); n in after && after[n].records == 0
    ensures !NoLastRecord(LastTwo(n, a, d))
  {
    var ops := LastTwo(n, a, d);
    assert ops[..1] == [ops[0]] && [ops[0]][..0] == [];
    ScanHasLast(files, [ops[0]], 0);
    ScanHasLast(files, ops, 1);
    assert ops[1].recordNumber == MAX_RECORD_COUNT;
  }

  lemma LastTwoArePaid(cfg: Config, accs: Accounts, b: Block, n: Name, d: RecordData, log: seq<BlockOp>)
    requires b.kind.Regular? && b.records == LastTwo(n, b.minerId, d) && BalanceOf(accs, b.minerId) >= 0
    requires cfg.fees.create >= 0 && 0 <= 2 * cfg.fees.append <= cfg.fees.opReward
    ensures ScanAccounts(accs, b.records, Some(log), RewardOf(cfg, b), cfg.fees).ok
  {
    var ops := b.records;
    assert ops[..1] == [ops[0]] && [ops[0]][..0] == [];
    assert FeesOf([ops[0]], cfg.fees) == cfg.fees.append;
    assert FeesOf(ops, cfg.fees) == 2 * cfg.fees.append;
    SecondPays(cfg, accs, b, log);
  }

  // The tree accepts the 65536th record: the cached count wraps to 0, and the chain does not replay.
  lemma TreeAcceptsTooMany(cfg: Config, g: Block, b: Block, c: Block, n: Name, d: RecordData)
    requires FillRun(cfg, g, b, c, n, d, 0xFFFE) && c.records == LastTwo(n, c.minerId, d)
    requires 2 * cfg.fees.append <= cfg.fees.opReward
    ensures var (l, ok) := Add(cfg, Add(cfg, Add(cfg, EMPTY, g).0, b).0, c);
            && ok && l.chains[IdOf(cfg, c)] == [g, b, c] && !Replays(cfg, [g, b, c])
            && l.cache.Some? && n in l.cache.value.files && l.cache.value.files[n].records == 0
  {
    hide Fill, FeesOf, Balances, FullFilesystem, ScanFs, ScanAccounts, ValidBlock, Add, LastTwo, Fold, CacheIs, Log;
    FilledTree(cfg, g, b, c, n, d, 0xFFFE);
    var l := Add(cfg, Add(cfg, EMPTY, g).0, b).0;
    var state := l.cache.value;
    LastTwoAreScanned(state.files, n, c.minerId, d);
    LastTwoArePaid(cfg, state.accounts, c, n, d, Log([g, b]));
    AddOnTop(cfg, l, c);
    assert [g, b] + [c] == [g, b, c];
    TooManyDoNotReplay(cfg, [g, b], c);
  }

  lemma TooManyDoNotReplay(cfg: Config, chain: seq<Block>, c: Block)
    requires chain != [] && Replays(cfg, chain) && c.kind.Regular? && !NoLastRecord(c.records)
    ensures !Replays(cfg, chain + [c])
  {
    FullFilesystemSnoc(chain, c);
    if Replays(cfg, chain + [c]) {
      ReplayHasNoLastRecord(FullFilesystem(chain).value, c.records);
    }
  }

  // A full file is deleted, created again and appended to.
  function Renewal(n: Name, a: Name, d: RecordData): seq<BlockOp> {
    [BlockOp(DeleteFile, a, n, 0, d), BlockOp(CreateFile, a, n, 0, d), BlockOp(AppendFile, a, n, 0, d)]
  }

  lemma RenewalApplies(files: Files, n: Name, a: Name, d: RecordData)
    requires |n| <= MAX_FILENAME_LENGTH && HasOnly(files, n, MAX_RECORD_COUNT)
    ensures ApplyOps(files, Renewal(n, a, d), true, true).Some? && !NoAppendToFull(files, Renewal(n, a, d))
  {
    var ops := Renewal(n, a, d);
    assert ops[..2][..1] == ops[..1] && ops[..1][..0] == [];
    assert ApplyOps(files, ops[..1], true, true) == Some(files - {n});
    assert ApplyOps(files, ops[..2], true, true) == ApplyOp(files - {n}, ops[1], true, true);
    assert ApplyOps(files, ops, true, true).Some?;
    assert ops[2].kind.AppendFile? && files[ops[2].filename].records == MAX_RECORD_COUNT;
  }

  // The refund only adds, so the reward pays for the creation and the append.
  lemma RenewalIsPaid(accs: Accounts, log: seq<BlockOp>, n: Name, a: Name, d: RecordData, fees: Fees)
    requires fees.create >= 0 && fees.append >= 0 && a in accs && accs[a] >= fees.create + fees.append
    ensures SettleOps(accs, Renewal(n, a, d), log, fees).Some?
  {
    var ops := Renewal(n, a, d);
    assert ops[..2][..1] == ops[..1] && ops[..1][..0] == [];
    RefundOnlyPays(accs, n, log, fees);
    var refunded := Refund(accs, n, log + [], fees);
    assert log + [] == log;
    assert BalanceOf(refunded, a) >= BalanceOf(accs, a);
    assert SettleOps(accs, ops[..0], log, fees) == Some(accs);
    assert SettleOps(accs, ops[..1], log, fees) == Some(refunded);
    assert SettleOps(accs, ops[..2], log, fees) == Spend(refunded, a, fees.create);
  }

  // The tree refuses a block that replays: the count of the deleted file is still looked at.
  lemma TreeRefusesRenewal(cfg: Config, g: Block, b: Block, c: Block, n: Name, d: RecordData)
    requires FillRun(cfg, g, b, c, n, d, MAX_RECORD_COUNT) && c.records == Renewal(n, c.minerId, d)
    requires cfg.fees.create + cfg.fees.append <= cfg.fees.opReward
    ensures var l := Add(cfg, Add(cfg, EMPTY, g).0, b).0;
            && c.prev in l.chains && l.chains[c.prev] == [g, b]
            && !Add(cfg, l, c).1 && Replays(cfg, [g, b, c])
  {
    hide Fill, FeesOf, Balances, FullFilesystem, ScanFs, ScanAccounts, ValidBlock, Renewal, Log, SettleOps, ApplyOps;
    FilledTree(cfg, g, b, c, n, d, MAX_RECORD_COUNT);
    var state := Add(cfg, Add(cfg, EMPTY, g).0, b).0.cache.value;
    var files := FullFilesystem([g, b]).value;
    RenewalApplies(files, n, c.minerId, d);
    VerdictsDiffer(state.files, files, c.records);
    ShapeKeepsFullness(state.files, files, c.records);
    FullFilesystemSnoc([g, b], c);
    var start := Award(state.accounts, c.minerId, cfg.fees.opReward);
    RenewalIsPaid(start, Log([g, b]), n, c.minerId, d, cfg.fees);
    BalancesSnoc([g, b], c, cfg.fees);
    assert [g, b] + [c] == [g, b, c];
  }
}
