/**
 Coins are conserved: what an account owns is what it mined minus the fees held by the files and
 records that are alive, and a refund pays back exactly the fees of the file's current life.
 */
module Conservation {
  import opened Blocks
  import opened Chains
  import opened FileSystemState
  import opened FileLives
  import opened AccountsState

  // ---------- Sums over finite sets of names ----------

  ghost function Sum(names: set<Name>, f: Name -> int): int {
    if names == {} then 0
    else
      var n :| n in names;
      f(n) + Sum(names - {n}, f)
  }

  lemma {:induction false} SumRemove(names: set<Name>, n: Name, f: Name -> int)
    requires n in names
    ensures Sum(names, f) == f(n) + Sum(names - {n}, f)
  {
    var m :| m in names && Sum(names, f) == f(m) + Sum(names - {m}, f);
    if m != n {
      SumRemove(names - {m}, n, f);
      SumRemove(names - {n}, m, f);
      assert names - {m} - {n} == names - {n} - {m};
    }
  }

  lemma {:induction false} SumAgree(names: set<Name>, f: Name -> int, g: Name -> int)
    requires forall n :: n in names ==> f(n) == g(n)
    ensures Sum(names, f) == Sum(names, g)
  {
    if names != {} {
      var n :| n in names;
      SumAgree(names - {n}, f, g);
      SumRemove(names, n, f);
      SumRemove(names, n, g);
    }
  }

  // ---------- Coins, of one account or of all ----------

  datatype Owner = Of(account: Name) | Everyone

  predicate Owns(w: Owner, a: Name) {
    w.Everyone? || w.account == a
  }

  ghost function Coins(accs: Accounts, w: Owner): int {
    match w
    case Of(a) => BalanceOf(accs, a)
    case Everyone => Sum(accs.Keys, n => BalanceOf(accs, n))
  }

  function AppendedBy(appended: seq<BlockOp>, w: Owner): nat {
    if appended == [] then 0
    else AppendedBy(appended[..|appended| - 1], w) + if Owns(w, appended[|appended| - 1].creator) then 1 else 0
  }

  // The fees that an owner paid for the current life of a file.
  function FeesHeld(life: Life, w: Owner, fees: Fees): int {
    match life
    case Absent => 0
    case Alive(creator, appended) =>
      (if Owns(w, creator) then fees.create else 0) + fees.append * AppendedBy(appended, w)
  }

  function FeesHeldAfter(log: seq<BlockOp>, w: Owner, fees: Fees): Name -> int {
    n => FeesHeld(LifeOf(log, n), w, fees)
  }

  function Reward(b: Block, fees: Fees): int {
    match b.kind
    case Genesis => 0
    case Regular => fees.opReward
    case NoOp => fees.noOpReward
  }

  function Mined(chain: seq<Block>, n: nat, w: Owner, fees: Fees): int
    requires n <= |chain|
  {
    if n == 0 then 0
    else Mined(chain, n - 1, w, fees) + if Owns(w, chain[n - 1].minerId) then Reward(chain[n - 1], fees) else 0
  }

  // What an owner has, counting the fees that a deletion would pay back.
  ghost function Wealth(accs: Accounts, log: seq<BlockOp>, w: Owner, fees: Fees): int
    requires Replayed(log).Some?
  {
    Coins(accs, w) + Sum(Replayed(log).value.Keys, FeesHeldAfter(log, w, fees))
  }

  // ---------- Single transactions ----------

  lemma SetBalance(accs: Accounts, a: Name, v: int, w: Owner)
    ensures Coins(accs[a := v], w) == Coins(accs, w) + if Owns(w, a) then v - BalanceOf(accs, a) else 0
  {
    if w.Everyone? {
      var after := accs[a := v];
      var f, g := (n: Name) => BalanceOf(accs, n), (n: Name) => BalanceOf(after, n);
      SumRemove(after.Keys, a, g);
      SumAgree(after.Keys - {a}, f, g);
      assert after.Keys - {a} == accs.Keys - {a};
      if a in accs {
        SumRemove(accs.Keys, a, f);
      } else {
        assert accs.Keys - {a} == accs.Keys;
      }
    }
  }

  // Before the last operation on the file, the backward walk goes on.
  lemma RefundSkips(accs: Accounts, n: Name, log: seq<BlockOp>, fees: Fees)
    requires log != [] && log[|log| - 1].filename != n
    ensures Refund(accs, n, log, fees) == Refund(accs, n, log[..|log| - 1], fees)
    ensures LifeOf(log, n) == LifeOf(log[..|log| - 1], n)
  {
  }

  lemma RefundStops(accs: Accounts, n: Name, log: seq<BlockOp>, fees: Fees, w: Owner)
    requires log != [] && log[|log| - 1].filename == n && LegalNext(log[..|log| - 1], log[|log| - 1])
    requires !log[|log| - 1].kind.AppendFile?
    ensures Coins(Refund(accs, n, log, fees), w) == Coins(accs, w) + FeesHeld(LifeOf(log, n), w, fees)
  {
    var tx := log[|log| - 1];
    SetBalance(accs, tx.creator, RefundTx(accs, tx, n, fees).0[tx.creator], w);
  }

  lemma RefundOfAppend(accs: Accounts, n: Name, log: seq<BlockOp>, fees: Fees, w: Owner)
    requires log != [] && log[|log| - 1].filename == n && LegalNext(log[..|log| - 1], log[|log| - 1])
    requires log[|log| - 1].kind.AppendFile?
    ensures var init, tx := log[..|log| - 1], log[|log| - 1];
            && Refund(accs, n, log, fees) == Refund(Award(accs, tx.creator, fees.append), n, init, fees)
            && Coins(Award(accs, tx.creator, fees.append), w) - Coins(accs, w)
            == FeesHeld(LifeOf(log, n), w, fees) - FeesHeld(LifeOf(init, n), w, fees)
  {
    var init, tx := log[..|log| - 1], log[|log| - 1];
    SetBalance(accs, tx.creator, BalanceOf(accs, tx.creator) + fees.append, w);
    AppendHoldsFee(LifeOf(init, n), tx, w, fees);
  }

  // The backward walk pays each account exactly the fees it holds in the file's current life, through
  // any number of earlier deletions and re-creations.
  lemma {:induction false} RefundPaysCurrentLife(accs: Accounts, n: Name, log: seq<BlockOp>, fees: Fees, w: Owner)
    requires LegalLog(log)
    ensures Coins(Refund(accs, n, log, fees), w) == Coins(accs, w) + FeesHeld(LifeOf(log, n), w, fees)
    decreases |log|
  {
    if log != [] {
      hide *;
      var init, tx := log[..|log| - 1], log[|log| - 1];
      LegalSnoc(log);
      if tx.filename != n {
        RefundSkips(accs, n, log, fees);
        RefundPaysCurrentLife(accs, n, init, fees, w);
      } else if tx.kind.AppendFile? {
        RefundOfAppend(accs, n, log, fees, w);
        RefundPaysCurrentLife(Award(accs, tx.creator, fees.append), n, init, fees, w);
      } else {
        RefundStops(accs, n, log, fees, w);
      }
    }
  }

  lemma AppendHoldsFee(life: Life, tx: BlockOp, w: Owner, fees: Fees)
    requires life.Alive?
    ensures FeesHeld(life.(appended := life.appended + [tx]), w, fees)
         == FeesHeld(life, w, fees) + if Owns(w, tx.creator) then fees.append else 0
  {
    assert (life.appended + [tx])[..|life.appended|] == life.appended;
    var k := AppendedBy(life.appended, w);
    assert fees.append * (k + 1) == fees.append * k + fees.append;
  }

  lemma OtherFilesKeepFees(log: seq<BlockOp>, op: BlockOp, names: set<Name>, w: Owner, fees: Fees)
    requires op.filename !in names
    ensures Sum(names, FeesHeldAfter(log + [op], w, fees)) == Sum(names, FeesHeldAfter(log, w, fees))
  {
    assert (log + [op])[..|log|] == log;
    SumAgree(names, FeesHeldAfter(log + [op], w, fees), FeesHeldAfter(log, w, fees));
  }

  lemma ReplayedSnoc(log: seq<BlockOp>, op: BlockOp)
    requires Replayed(log + [op]).Some?
    ensures Replayed(log).Some? && LegalLog(log) && LegalNext(log, op)
    ensures Replayed(log + [op]) == ApplyOp(Replayed(log).value, op, true, true)
    ensures op.filename in Replayed(log).value <==> LifeOf(log, op.filename).Alive?
  {
    assert (log + [op])[..|log|] == log;
    ReplayIsLives(log + [op]);
    ReplayIsLives(log);
    LegalSnoc(log + [op]);
    assert Describes(LifeOf(log, op.filename), Replayed(log).value, op.filename);
  }

  lemma OneFileSplit(names: set<Name>, n: Name, f: Name -> int)
    ensures Sum(names, f) == Sum(names - {n}, f) + if n in names then f(n) else 0
  {
    if n in names {
      SumRemove(names, n, f);
    } else {
      assert names - {n} == names;
    }
  }

  lemma LifeSnoc(log: seq<BlockOp>, op: BlockOp)
    requires LegalNext(log, op)
    ensures LifeOf(log + [op], op.filename) ==
            (match op.kind
             case CreateFile => Alive(op.creator, [])
             case AppendFile => LifeOf(log, op.filename).(appended := LifeOf(log, op.filename).appended + [op])
             case DeleteFile => Absent
             case UnknownOp => Absent)
  {
    assert (log + [op])[..|log|] == log;
  }

  lemma PaymentMovesFee(accs: Accounts, a: Name, fee: int, w: Owner)
    requires Spend(accs, a, fee).Some?
    ensures Coins(Spend(accs, a, fee).value, w) == Coins(accs, w) - if Owns(w, a) then fee else 0
  {
    SetBalance(accs, a, accs[a] - fee, w);
  }

  // The coins an operation takes from an owner are the fees the file holds more for it afterwards.
  lemma OpMovesFees(accs: Accounts, log: seq<BlockOp>, op: BlockOp, w: Owner, fees: Fees)
    requires LegalLog(log) && LegalNext(log, op) && SettleOp(accs, op, log, fees).Some?
    ensures Coins(SettleOp(accs, op, log, fees).value, w) + FeesHeld(LifeOf(log + [op], op.filename), w, fees)
         == Coins(accs, w) + FeesHeld(LifeOf(log, op.filename), w, fees)
  {
    LifeSnoc(log, op);
    var life := LifeOf(log, op.filename);
    match op.kind
    case CreateFile =>
      PaymentMovesFee(accs, op.creator, fees.create, w);
      assert AppendedBy([], w) == 0;
    case AppendFile =>
      PaymentMovesFee(accs, op.creator, fees.append, w);
      AppendHoldsFee(life, op, w, fees);
    case DeleteFile =>
      RefundPaysCurrentLife(accs, op.filename, log, fees, w);
  }

  // Wealth, with the fees held by one file set apart.
  lemma WealthSplit(accs: Accounts, log: seq<BlockOp>, n: Name, w: Owner, fees: Fees)
    requires Replayed(log).Some?
    ensures Wealth(accs, log, w, fees)
         == Coins(accs, w) + Sum(Replayed(log).value.Keys - {n}, FeesHeldAfter(log, w, fees))
            + FeesHeld(LifeOf(log, n), w, fees)
  {
    OneFileSplit(Replayed(log).value.Keys, n, FeesHeldAfter(log, w, fees));
    ReplayIsLives(log);
    assert Describes(LifeOf(log, n), Replayed(log).value, n);
  }

  lemma OtherFilesStay(log: seq<BlockOp>, op: BlockOp)
    requires Replayed(log + [op]).Some? && Replayed(log).Some?
    ensures Replayed(log + [op]).value.Keys - {op.filename} == Replayed(log).value.Keys - {op.filename}
  {
    ReplayedSnoc(log, op);
  }

  lemma OpKeepsWealth(accs: Accounts, log: seq<BlockOp>, op: BlockOp, w: Owner, fees: Fees)
    requires Replayed(log + [op]).Some? && SettleOp(accs, op, log, fees).Some?
    ensures Replayed(log).Some?
    ensures Wealth(SettleOp(accs, op, log, fees).value, log + [op], w, fees) == Wealth(accs, log, w, fees)
  {
    hide *;
    ReplayedSnoc(log, op);
    OtherFilesStay(log, op);
    WealthSplit(accs, log, op.filename, w, fees);
    WealthSplit(SettleOp(accs, op, log, fees).value, log + [op], op.filename, w, fees);
    OtherFilesKeepFees(log, op, Replayed(log).value.Keys - {op.filename}, w, fees);
    OpMovesFees(accs, log, op, w, fees);
  }

  // ---------- Blocks and chains ----------

  lemma {:induction false} OpsKeepWealth(accs: Accounts, log: seq<BlockOp>, ops: seq<BlockOp>, w: Owner, fees: Fees)
    requires Replayed(log + ops).Some? && SettleOps(accs, ops, log, fees).Some?
    ensures Replayed(log).Some?
    ensures Wealth(SettleOps(accs, ops, log, fees).value, log + ops, w, fees) == Wealth(accs, log, w, fees)
  {
    if ops == [] {
      assert log + ops == log;
    } else {
      var init, op := ops[..|ops| - 1], ops[|ops| - 1];
      assert log + ops == (log + init) + [op];
      OpKeepsWealth(SettleOps(accs, init, log, fees).value, log + init, op, w, fees);
      OpsKeepWealth(accs, log, init, w, fees);
    }
  }

  lemma BlockAddsReward(accs: Accounts, b: Block, idx: nat, log: seq<BlockOp>, w: Owner, fees: Fees)
    requires Replayed(log + RecordsOf(b)).Some? && SettleBlock(accs, b, idx, log, fees).Some?
    ensures Replayed(log).Some?
    ensures Wealth(SettleBlock(accs, b, idx, log, fees).value, log + RecordsOf(b), w, fees)
         == Wealth(accs, log, w, fees) + if Owns(w, b.minerId) then Reward(b, fees) else 0
  {
    var reward := Reward(b, fees);
    SetBalance(accs, b.minerId, BalanceOf(accs, b.minerId) + reward, w);
    if b.kind.Regular? {
      OpsKeepWealth(Award(accs, b.minerId, reward), log, b.records, w, fees);
    } else {
      assert log + RecordsOf(b) == log;
    }
  }

  lemma {:induction false} ChainWealth(chain: seq<Block>, n: nat, w: Owner, fees: Fees)
    requires n <= |chain| && Replayed(LogBetween(chain, 0, n)).Some? && BalancesUpTo(chain, n, fees).Some?
    ensures Wealth(BalancesUpTo(chain, n, fees).value, LogBetween(chain, 0, n), w, fees) == Mined(chain, n, w, fees)
    decreases n
  {
    if n == 0 {
      assert Replayed([]).value == map[];
    } else {
      BlockAddsReward(BalancesUpTo(chain, n - 1, fees).value, chain[n - 1], n - 1,
                      LogBetween(chain, 0, n - 1), w, fees);
      ChainWealth(chain, n - 1, w, fees);
    }
  }

  // On every chain on which both replays succeed, each account's balance is what it mined minus the
  // fees for the live files it created and the live records it appended.
  lemma BalanceIsMinedMinusHeld(chain: seq<Block>, a: Name, fees: Fees)
    requires chain != [] && Balances(chain, fees).Some? && FullFilesystem(chain).Some?
    ensures BalanceOf(Balances(chain, fees).value, a)
         == Mined(chain, |chain|, Of(a), fees)
          - Sum(FullFilesystem(chain).value.Keys, FeesHeldAfter(Log(chain), Of(a), fees))
  {
    FullFilesystemIsReplayed(chain);
    ChainWealth(chain, |chain|, Of(a), fees);
  }

  lemma {:induction false} EveryoneAppended(appended: seq<BlockOp>)
    ensures AppendedBy(appended, Everyone) == |appended|
  {
    if appended != [] {
      EveryoneAppended(appended[..|appended| - 1]);
    }
  }

  // What a deletion of the file would pay out in total.
  function RefundValue(fs: Files, fees: Fees): Name -> int {
    n => if n in fs then fees.create + fees.append * fs[n].records else 0
  }

  // All balances together with the fees held by the live files are the rewards ever minted.
  lemma CoinsAreConserved(chain: seq<Block>, fees: Fees)
    requires chain != [] && Balances(chain, fees).Some? && FullFilesystem(chain).Some?
    ensures var accs, fs := Balances(chain, fees).value, FullFilesystem(chain).value;
            Sum(accs.Keys, a => BalanceOf(accs, a)) + Sum(fs.Keys, RefundValue(fs, fees)) ==
            Mined(chain, |chain|, Everyone, fees)
  {
    var fs, log := FullFilesystem(chain).value, Log(chain);
    FullFilesystemIsReplayed(chain);
    ChainWealth(chain, |chain|, Everyone, fees);
    ReplayIsLives(log);
    forall n | n in fs.Keys ensures RefundValue(fs, fees)(n) == FeesHeldAfter(log, Everyone, fees)(n) {
      assert Describes(LifeOf(log, n), fs, n);
      EveryoneAppended(LifeOf(log, n).appended);
    }
    SumAgree(fs.Keys, RefundValue(fs, fees), FeesHeldAfter(log, Everyone, fees));
  }

  // ---------- No debts, and only miners hold accounts ----------

  ghost predicate NoDebts(accs: Accounts) {
    forall a :: a in accs ==> accs[a] >= 0
  }

  lemma {:induction false} RefundLeavesNoDebts(accs: Accounts, n: Name, log: seq<BlockOp>, fees: Fees)
    requires NoDebts(accs) && fees.create >= 0 && fees.append >= 0
    ensures NoDebts(Refund(accs, n, log, fees))
    decreases |log|
  {
    if log != [] {
      var (next, stop) := RefundTx(accs, log[|log| - 1], n, fees);
      if !stop {
        RefundLeavesNoDebts(next, n, log[..|log| - 1], fees);
      }
    }
  }

  lemma {:induction false} OpsLeaveNoDebts(accs: Accounts, ops: seq<BlockOp>, log: seq<BlockOp>, fees: Fees)
    requires NoDebts(accs) && fees.create >= 0 && fees.append >= 0 && SettleOps(accs, ops, log, fees).Some?
    ensures NoDebts(SettleOps(accs, ops, log, fees).value)
  {
    if ops != [] {
      var init := ops[..|ops| - 1];
      OpsLeaveNoDebts(accs, init, log, fees);
      RefundLeavesNoDebts(SettleOps(accs, init, log, fees).value, ops[|ops| - 1].filename, log + init, fees);
    }
  }

  lemma {:induction false} ReplayLeavesNoDebts(chain: seq<Block>, n: nat, fees: Fees)
    requires n <= |chain| && BalancesUpTo(chain, n, fees).Some?
    requires fees.create >= 0 && fees.append >= 0 && fees.opReward >= 0 && fees.noOpReward >= 0
    ensures NoDebts(BalancesUpTo(chain, n, fees).value)
    decreases n
  {
    if n > 0 {
      ReplayLeavesNoDebts(chain, n - 1, fees);
      var b := chain[n - 1];
      if b.kind.Regular? {
        OpsLeaveNoDebts(Award(BalancesUpTo(chain, n - 1, fees).value, b.minerId, fees.opReward),
                        b.records, LogBetween(chain, 0, n - 1), fees);
      }
    }
  }

  function Miners(chain: seq<Block>, n: nat): set<Name>
    requires n <= |chain|
  {
    if n == 0 then {}
    else Miners(chain, n - 1) + if chain[n - 1].kind.Genesis? then {} else {chain[n - 1].minerId}
  }

  ghost predicate PaidFrom(log: seq<BlockOp>, accounts: set<Name>) {
    forall i :: 0 <= i < |log| && !log[i].kind.DeleteFile? ==> log[i].creator in accounts
  }

  // The walk of a refund meets only operations that some account paid for: it ends at the creation.
  lemma {:induction false} RefundOpensNoAccount(accs: Accounts, n: Name, log: seq<BlockOp>, fees: Fees)
    requires LegalLog(log) && LifeOf(log, n).Alive? && PaidFrom(log, accs.Keys)
    ensures Refund(accs, n, log, fees).Keys == accs.Keys
    decreases |log|
  {
    var init, tx := log[..|log| - 1], log[|log| - 1];
    LegalSnoc(log);
    if tx.filename != n || tx.kind.AppendFile? {
      var (next, stop) := RefundTx(accs, tx, n, fees);
      assert next.Keys == accs.Keys;
      assert PaidFrom(init, next.Keys);
      RefundOpensNoAccount(next, n, init, fees);
    }
  }

  lemma OpOpensNoAccount(accs: Accounts, log: seq<BlockOp>, op: BlockOp, fees: Fees)
    requires LegalLog(log) && LegalNext(log, op) && PaidFrom(log, accs.Keys)
    requires SettleOp(accs, op, log, fees).Some?
    ensures SettleOp(accs, op, log, fees).value.Keys == accs.Keys && PaidFrom(log + [op], accs.Keys)
  {
    if op.kind.DeleteFile? {
      RefundOpensNoAccount(accs, op.filename, log, fees);
    }
  }

  lemma {:induction false} OpsOpenNoAccount(accs: Accounts, log: seq<BlockOp>, ops: seq<BlockOp>, fees: Fees)
    requires Replayed(log + ops).Some? && PaidFrom(log, accs.Keys) && SettleOps(accs, ops, log, fees).Some?
    ensures SettleOps(accs, ops, log, fees).value.Keys == accs.Keys && PaidFrom(log + ops, accs.Keys)
  {
    if ops == [] {
      assert log + ops == log;
    } else {
      var init, op := ops[..|ops| - 1], ops[|ops| - 1];
      assert log + ops == (log + init) + [op];
      ReplayedSnoc(log + init, op);
      OpsOpenNoAccount(accs, log, init, fees);
      OpOpensNoAccount(SettleOps(accs, init, log, fees).value, log + init, op, fees);
    }
  }

  // On every chain on which both replays succeed, the accounts are exactly those of the miners, and
  // every creation and append was paid for by one of them.
  lemma {:induction false} AccountsAreMiners(chain: seq<Block>, n: nat, fees: Fees)
    requires n <= |chain| && Replayed(LogBetween(chain, 0, n)).Some? && BalancesUpTo(chain, n, fees).Some?
    ensures BalancesUpTo(chain, n, fees).value.Keys == Miners(chain, n)
    ensures PaidFrom(LogBetween(chain, 0, n), Miners(chain, n))
    decreases n
  {
    if n > 0 {
      var b, log := chain[n - 1], LogBetween(chain, 0, n - 1);
      var before := BalancesUpTo(chain, n - 1, fees).value;
      BlockAddsReward(before, b, n - 1, log, Everyone, fees);
      AccountsAreMiners(chain, n - 1, fees);
      if b.kind.Regular? {
        OpsOpenNoAccount(Award(before, b.minerId, fees.opReward), log, b.records, fees);
      } else {
        assert log + RecordsOf(b) == log;
      }
    }
  }
}
