/**
 The runs that the theorems about failures speak of exist. The hash keeps the last 16 bytes of a
 block, where the nonce is, so blocks with different nonces have different ids, and the targets ask
 for no zeros.
 */
module Witnesses {
  import opened Blocks
  import opened FileSystemState
  import opened AccountsState
  import opened Ledger
  import opened FilledFiles
  import opened Thresholds
  import opened FullFiles

  const ZERO: Digest := [0, 0, 0, 0, 0, 0, 0, 0, 0, 0, 0, 0, 0, 0, 0, 0]

  function TailHash(s: seq<Byte>): Digest {
    if |s| >= DIGEST_SIZE then s[|s| - DIGEST_SIZE..] else ZERO
  }

  // Fees of one coin, and rewards that pay for as many records as a file can have.
  function UnitConfig(confirmsCreate: int, confirmsAppend: int): Config {
    Config(Fees(1, 1, 0x1_0000, 1), 0, 0, confirmsCreate, confirmsAppend, TailHash)
  }

  function GenesisBlock(): Block {
    Block(Genesis, ZERO, [], [], 0)
  }

  ghost predicate UsesTailHash(cfg: Config) {
    cfg.md5 == TailHash && cfg.opZeros == 0 && cfg.noOpZeros == 0
  }

  lemma IdShowsNonce(cfg: Config, b: Block)
    requires UsesTailHash(cfg) && !b.kind.Genesis?
    ensures IdOf(cfg, b)[12..] == LittleEndian32(b.nonce)
  {
    var s := Serialize(b);
    NonceRoundTrip(b, b.nonce);
    assert s[|s| - 4..] == LittleEndian32(b.nonce);
    assert IdOf(cfg, b) == s[|s| - DIGEST_SIZE..];
  }

  lemma NoncesTellApart(cfg: Config, x: Block, y: Block)
    requires UsesTailHash(cfg) && !x.kind.Genesis? && !y.kind.Genesis? && x.nonce != y.nonce
    ensures IdOf(cfg, x) != IdOf(cfg, y)
  {
    IdShowsNonce(cfg, x);
    IdShowsNonce(cfg, y);
    LittleEndianRoundTrip(x.nonce);
    LittleEndianRoundTrip(y.nonce);
  }

  lemma GenesisTellsApart(cfg: Config, b: Block)
    requires UsesTailHash(cfg) && !b.kind.Genesis? && b.nonce != 0
    ensures IdOf(cfg, GenesisBlock()) != IdOf(cfg, b)
  {
    IdShowsNonce(cfg, b);
    LittleEndianRoundTrip(b.nonce);
    LittleEndianRoundTrip(0);
    if IdOf(cfg, b) == ZERO {
      assert LittleEndian32(b.nonce) == ZERO[12..] == LittleEndian32(0);
    }
  }

  lemma {:induction false} UnitFees(ops: seq<BlockOp>, fees: Fees)
    requires fees.create == 1 && fees.append == 1
    ensures FeesOf(ops, fees) == |ops|
  {
    if ops != [] {
      UnitFees(ops[..|ops| - 1], fees);
    }
  }

  // Two blocks on a genesis block with the given records, and a sibling.
  lemma SiblingRunExists(cfg: Config, ops: seq<BlockOp>, ops': seq<BlockOp>)
    returns (first: Block, sibling: Block, second: Block)
    requires UsesTailHash(cfg)
    ensures SiblingRun(cfg, GenesisBlock(), first, sibling, second)
    ensures first.records == ops && second.records == ops' && first.minerId == second.minerId == []
  {
    var g := GenesisBlock();
    first := Block(Regular, ZERO, ops, [], 1);
    sibling := Block(NoOp, ZERO, [], [], 2);
    second := Block(Regular, IdOf(cfg, first), ops', [], 3);
    GenesisTellsApart(cfg, first);
    GenesisTellsApart(cfg, sibling);
    GenesisTellsApart(cfg, second);
    NoncesTellApart(cfg, first, sibling);
    NoncesTellApart(cfg, first, second);
    NoncesTellApart(cfg, sibling, second);
  }

  lemma DuplicateRunExists(cfg: Config, d: RecordData) returns (first: Block, sibling: Block, second: Block)
    requires cfg == UnitConfig(cfg.confirmsCreate, cfg.confirmsAppend)
    ensures DuplicateRun(cfg, GenesisBlock(), first, sibling, second, [], d)
  {
    var ops := Fill([], [], d, 0);
    UnitFees(ops, cfg.fees);
    first, sibling, second := SiblingRunExists(cfg, ops, ops);
  }

  lemma DoubleAppendRunExists(cfg: Config, d: RecordData) returns (first: Block, sibling: Block, second: Block)
    requires cfg == UnitConfig(cfg.confirmsCreate, cfg.confirmsAppend)
    ensures DoubleAppendRun(cfg, GenesisBlock(), first, sibling, second, [], d)
  {
    var ops, ops' := Fill([], [], d, 1), [BlockOp(AppendFile, [], [], 0, d)];
    UnitFees(ops, cfg.fees);
    UnitFees(ops', cfg.fees);
    first, sibling, second := SiblingRunExists(cfg, ops, ops');
  }

  lemma RefusedRunExists(cfg: Config, d: RecordData) returns (first: Block, refused: Block, second: Block)
    requires cfg == UnitConfig(cfg.confirmsCreate, cfg.confirmsAppend)
    ensures RefusedRun(cfg, GenesisBlock(), first, refused, second, [], d)
  {
    var ops := Fill([], [], d, 0);
    UnitFees(ops, cfg.fees);
    first := Block(Regular, ZERO, ops, [], 1);
    refused := Block(Regular, ZERO, [BlockOp(DeleteFile, [], [], 0, d)], [], 2);
    second := Block(Regular, IdOf(cfg, first), ops, [], 3);
    GenesisTellsApart(cfg, first);
    GenesisTellsApart(cfg, refused);
    GenesisTellsApart(cfg, second);
    NoncesTellApart(cfg, first, refused);
    NoncesTellApart(cfg, first, second);
  }

  // ---------- A stack of empty blocks ----------

  // A genesis block, a block with records and m empty blocks on top; the nonce of a block is its height.
  function Tower(cfg: Config, ops: seq<BlockOp>, m: nat): (s: seq<Block>)
    requires m < 0x1000_0000
    ensures |s| == m + 2
  {
    if m == 0 then [GenesisBlock(), Block(Regular, ZERO, ops, [], 1)]
    else
      var t := Tower(cfg, ops, m - 1);
      t + [Block(NoOp, IdOf(cfg, t[m]), [], [], m + 1)]
  }

  lemma {:induction false} TowerShape(cfg: Config, ops: seq<BlockOp>, m: nat, i: nat)
    requires m < 0x1000_0000 && i < m + 2
    ensures var s := Tower(cfg, ops, m);
            && s[0] == GenesisBlock() && s[1] == Block(Regular, ZERO, ops, [], 1)
            && s[i].nonce == i && (i >= 1 ==> !s[i].kind.Genesis? && s[i].prev == IdOf(cfg, s[i - 1]))
            && (i >= 2 ==> s[i].kind.NoOp? && s[i].records == [])
  {
    if m > 0 {
      TowerShape(cfg, ops, m - 1, if i < m + 1 then i else 0);
    }
  }

  lemma StackRunExists(cfg: Config, d: RecordData, k: nat) returns (s: seq<Block>)
    requires cfg == UnitConfig(cfg.confirmsCreate, cfg.confirmsAppend) && k < 0x1000_0000
    ensures StackRun(cfg, s, k, [], d)
  {
    var ops := Fill([], [], d, 1);
    UnitFees(ops, cfg.fees);
    var t := Tower(cfg, ops, k);
    s := t + [Block(NoOp, IdOf(cfg, GenesisBlock()), [], [], k + 2)];
    TowerShape(cfg, ops, k, 0);
    forall i | 1 <= i < k + 2
      ensures s[i].nonce == i && !s[i].kind.Genesis? && s[i].prev == IdOf(cfg, s[i - 1])
      ensures i >= 2 ==> s[i].kind.NoOp? && s[i].records == []
    {
      TowerShape(cfg, ops, k, i);
    }
    forall i, j | 0 <= i < j < k + 3 ensures IdOf(cfg, s[i]) != IdOf(cfg, s[j]) {
      if i == 0 {
        GenesisTellsApart(cfg, s[j]);
      } else {
        NoncesTellApart(cfg, s[i], s[j]);
      }
    }
  }

  // ---------- A filled file ----------

  lemma FillRunExists(cfg: Config, d: RecordData, k: nat, ops: seq<BlockOp>) returns (b: Block, c: Block)
    requires cfg == UnitConfig(cfg.confirmsCreate, cfg.confirmsAppend) && k <= MAX_RECORD_COUNT
    ensures FillRun(cfg, GenesisBlock(), b, c, [], d, k) && c.records == ops && c.minerId == []
  {
    b := Block(Regular, ZERO, Fill([], [], d, k), [], 1);
    c := Block(Regular, IdOf(cfg, b), ops, [], 2);
    UnitFees(b.records, cfg.fees);
    GenesisTellsApart(cfg, b);
    GenesisTellsApart(cfg, c);
    NoncesTellApart(cfg, b, c);
  }
}
