/**
 The validator's incremental account check (miner/state/block_chain_validator.go,
 `validateNewAccountBlockOps`): the balances of the parent block stay untouched and the block's
 effects are collected as a map of differences, which `update` adds in when the block is accepted.
 */
module Deltas {
  import opened Wrappers
  import opened Blocks
  import opened FileSystemState
  import opened AccountsState
  import opened Conservation

  // `fatal` marks an operation of unknown kind, which empties the result.
  datatype AccountScan = AccountScan(deltas: Accounts, valid: seq<BlockOp>, ok: bool, fatal: bool)

  function FeeOf(op: BlockOp, fees: Fees): int {
    if op.kind.CreateFile? then fees.create else fees.append
  }

  // `log` holds the operations before this one, None if the parent block is not in the tree. A
  // rejected payment still enters its account, with a difference of 0.
  function ScanAccountOp(accs: Accounts, s: AccountScan, op: BlockOp, log: Option<seq<BlockOp>>,
                         fees: Fees): AccountScan {
    match op.kind
    case UnknownOp => AccountScan(s.deltas, [], false, true)
    case DeleteFile =>
      if log.None? then s.(ok := false)
      else s.(deltas := Refund(s.deltas, op.filename, log.value, fees), valid := s.valid + [op])
    case _ =>
      var entered := Award(s.deltas, op.creator, 0);
      if BalanceOf(accs, op.creator) + entered[op.creator] < FeeOf(op, fees) then s.(deltas := entered, ok := false)
      else s.(deltas := Award(entered, op.creator, -FeeOf(op, fees)), valid := s.valid + [op])
  }

  function Followed(log: Option<seq<BlockOp>>, ops: seq<BlockOp>): Option<seq<BlockOp>> {
    if log.None? then None else Some(log.value + ops)
  }

  // Here `log` holds the operations of the chain of the parent block.
  function ScanAccounts(accs: Accounts, ops: seq<BlockOp>, log: Option<seq<BlockOp>>, start: Accounts,
                        fees: Fees): AccountScan {
    if ops == [] then AccountScan(start, [], true, false)
    else
      var init := ops[..|ops| - 1];
      var s := ScanAccounts(accs, init, log, start, fees);
      if s.fatal then s else ScanAccountOp(accs, s, ops[|ops| - 1], Followed(log, init), fees)
  }

  // The two ways in which the loop gives up: an operation of unknown kind empties the result, and a
  // deletion is refused if the parent block is not in the tree.
  lemma {:induction false} UnknownOpEmpties(accs: Accounts, ops: seq<BlockOp>, log: Option<seq<BlockOp>>,
                                            start: Accounts, fees: Fees)
    ensures var s := ScanAccounts(accs, ops, log, start, fees);
            && (s.fatal <==> exists i :: 0 <= i < |ops| && ops[i].kind.UnknownOp?)
            && (s.fatal ==> !s.ok && s.valid == [])
            && (log.None? && s.ok ==> forall i :: 0 <= i < |ops| ==> !ops[i].kind.DeleteFile?)
  {
    if ops != [] {
      UnknownOpEmpties(accs, ops[..|ops| - 1], log, start, fees);
    }
  }

  lemma {:induction false} OrphanDeletionsAreDropped(accs: Accounts, ops: seq<BlockOp>, start: Accounts, fees: Fees)
    ensures forall op :: op in ScanAccounts(accs, ops, None, start, fees).valid ==> !op.kind.DeleteFile?
  {
    if ops != [] {
      OrphanDeletionsAreDropped(accs, ops[..|ops| - 1], start, fees);
    }
  }

  // `update`: every difference is added to its account.
  function AddDeltas(accs: Accounts, deltas: Accounts): Accounts {
    map a | a in accs.Keys + deltas.Keys :: BalanceOf(accs, a) + BalanceOf(deltas, a)
  }

  method Update(accounts: Accounts, accUp: Accounts) returns (accs: Accounts)
    ensures accs == AddDeltas(accounts, accUp)
  {
    accs := accounts;
    var rest := accUp.Keys;
    while rest != {}
      invariant rest <= accUp.Keys
      invariant accs.Keys == accounts.Keys + (accUp.Keys - rest)
      invariant forall a :: a in accs ==>
                accs[a] == BalanceOf(accounts, a) + if a in rest then 0 else BalanceOf(accUp, a)
      decreases rest
    {
      var k :| k in rest;
      accs := Award(accs, k, accUp[k]);
      rest := rest - {k};
    }
  }

  // ---------- Agreement with replay ----------

  // Replay does not know an account that never mined, so it refuses it even a free operation.
  predicate PayersKnown(ops: seq<BlockOp>, accounts: set<Name>, fees: Fees) {
    forall i :: 0 <= i < |ops| && (ops[i].kind.CreateFile? || ops[i].kind.AppendFile?) ==>
      FeeOf(ops[i], fees) >= 1 || ops[i].creator in accounts
  }

  lemma AwardAddsDelta(accs: Accounts, deltas: Accounts, a: Name, v: int)
    ensures AddDeltas(accs, Award(deltas, a, v)) == Award(AddDeltas(accs, deltas), a, v)
  {
  }

  lemma RefundTxAddsDelta(accs: Accounts, deltas: Accounts, tx: BlockOp, n: Name, fees: Fees)
    ensures RefundTx(AddDeltas(accs, deltas), tx, n, fees)
         == (AddDeltas(accs, RefundTx(deltas, tx, n, fees).0), RefundTx(deltas, tx, n, fees).1)
  {
    match tx.kind
    case CreateFile => AwardAddsDelta(accs, deltas, tx.creator, fees.create);
    case AppendFile => AwardAddsDelta(accs, deltas, tx.creator, fees.append);
    case _ => AwardAddsDelta(accs, deltas, tx.creator, 0);
  }

  // A refund into the differences is a refund into the balances.
  lemma {:induction false} RefundAddsDelta(accs: Accounts, deltas: Accounts, n: Name, log: seq<BlockOp>, fees: Fees)
    ensures AddDeltas(accs, Refund(deltas, n, log, fees)) == Refund(AddDeltas(accs, deltas), n, log, fees)
    decreases |log|
  {
    if log != [] {
      var tx := log[|log| - 1];
      var (next, stop) := RefundTx(deltas, tx, n, fees);
      RefundTxAddsDelta(accs, deltas, tx, n, fees);
      if !stop {
        RefundAddsDelta(accs, next, n, log[..|log| - 1], fees);
      }
    }
  }

  // One creation or append: the check against balance plus difference is the check of replay.
  lemma PaymentAgrees(accs: Accounts, deltas: Accounts, a: Name, fee: int)
    ensures var paid := Award(Award(deltas, a, 0), a, -fee);
            var r := Spend(AddDeltas(accs, deltas), a, fee);
            && (r.Some? <==> BalanceOf(accs, a) + BalanceOf(deltas, a) >= fee && a in accs.Keys + deltas.Keys)
            && (r.Some? ==> AddDeltas(accs, paid) == r.value)
  {
    AwardAddsDelta(accs, deltas, a, 0);
    AwardAddsDelta(accs, Award(deltas, a, 0), a, -fee);
  }

  predicate PayerKnown(op: BlockOp, accounts: set<Name>, fees: Fees) {
    op.kind.CreateFile? || op.kind.AppendFile? ==> FeeOf(op, fees) >= 1 || op.creator in accounts
  }

  lemma AccountOpAgrees(accs: Accounts, s: AccountScan, op: BlockOp, log: seq<BlockOp>, fees: Fees)
    requires s.ok && !s.fatal && !op.kind.UnknownOp?
    ensures var t, r := ScanAccountOp(accs, s, op, Some(log), fees), SettleOp(AddDeltas(accs, s.deltas), op, log, fees);
            && !t.fatal
            && (t.ok && PayerKnown(op, AddDeltas(accs, s.deltas).Keys, fees) <==> r.Some?)
            && (r.Some? ==> AddDeltas(accs, t.deltas) == r.value)
  {
    if op.kind.DeleteFile? {
      RefundAddsDelta(accs, s.deltas, op.filename, log, fees);
    } else {
      PaymentAgrees(accs, s.deltas, op.creator, FeeOf(op, fees));
    }
  }

  // On operations that are legal for the files, the scan accepts all of them, each being free of
  // charge only for a known account, exactly when replay does; and then adding the differences to
  // the balances gives the balances of replay.
  lemma {:induction false} DeltasAgreeWithReplay(accs: Accounts, ops: seq<BlockOp>, log: seq<BlockOp>, start: Accounts,
                                                 fees: Fees)
    requires Replayed(log + ops).Some? && PaidFrom(log, AddDeltas(accs, start).Keys)
    ensures var s, r := ScanAccounts(accs, ops, Some(log), start, fees),
                        SettleOps(AddDeltas(accs, start), ops, log, fees);
            && (s.ok && PayersKnown(ops, AddDeltas(accs, start).Keys, fees) <==> r.Some?)
            && (r.Some? ==> AddDeltas(accs, s.deltas) == r.value && !s.fatal)
  {
    if ops != [] {
      var init, op := ops[..|ops| - 1], ops[|ops| - 1];
      assert log + ops == (log + init) + [op] && ops == init + [op];
      ReplayedSnoc(log + init, op);
      DeltasAgreeWithReplay(accs, init, log, start, fees);
      PayersSplit(init, op, AddDeltas(accs, start).Keys, fees);
      ScanStaysRejected(accs, init, op, log, start, fees);
      if SettleOps(AddDeltas(accs, start), init, log, fees).Some? {
        OpsOpenNoAccount(AddDeltas(accs, start), log, init, fees);
        AccountOpAgrees(accs, ScanAccounts(accs, init, Some(log), start, fees), op, log + init, fees);
      }
    }
  }

  lemma ScanStaysRejected(accs: Accounts, init: seq<BlockOp>, op: BlockOp, log: seq<BlockOp>, start: Accounts,
                          fees: Fees)
    ensures var s, t := ScanAccounts(accs, init, Some(log), start, fees),
                        ScanAccounts(accs, init + [op], Some(log), start, fees);
            t == (if s.fatal then s else ScanAccountOp(accs, s, op, Some(log + init), fees))
            && (t.ok ==> s.ok && !s.fatal)
  {
    assert (init + [op])[..|init|] == init;
    ScanFatalIsNotOk(accs, init, Some(log), start, fees);
  }

  lemma PayersSplit(init: seq<BlockOp>, op: BlockOp, accounts: set<Name>, fees: Fees)
    ensures PayersKnown(init + [op], accounts, fees) <==>
            PayersKnown(init, accounts, fees) && PayerKnown(op, accounts, fees)
  {
    var ops := init + [op];
    assert ops[|init|] == op;
    forall i | 0 <= i < |init| ensures ops[i] == init[i] {}
  }

  // ---------- More coins never hurt ----------

  ghost predicate AtLeast(more: Accounts, less: Accounts) {
    forall a :: BalanceOf(more, a) >= BalanceOf(less, a)
  }

  lemma AwardKeepsOrder(more: Accounts, less: Accounts, a: Name, v: int)
    requires AtLeast(more, less)
    ensures AtLeast(Award(more, a, v), Award(less, a, v))
  {
    forall x ensures BalanceOf(Award(more, a, v), x) >= BalanceOf(Award(less, a, v), x) {
      assert BalanceOf(more, x) >= BalanceOf(less, x);
      assert BalanceOf(more, a) >= BalanceOf(less, a);
    }
  }

  lemma {:induction false} RefundKeepsOrder(more: Accounts, less: Accounts, n: Name, log: seq<BlockOp>, fees: Fees)
    requires AtLeast(more, less)
    ensures AtLeast(Refund(more, n, log, fees), Refund(less, n, log, fees))
    decreases |log|
  {
    if log != [] {
      var tx := log[|log| - 1];
      var (m, stop) := RefundTx(more, tx, n, fees);
      var (l, _) := RefundTx(less, tx, n, fees);
      AwardKeepsOrder(more, less, tx.creator, 0);
      AwardKeepsOrder(more, less, tx.creator, fees.append);
      AwardKeepsOrder(more, less, tx.creator, fees.create);
      if !stop {
        RefundKeepsOrder(m, l, n, log[..|log| - 1], fees);
      }
    }
  }

  // Operations that pass without a reward pass with one.
  lemma {:induction false} ScanKeepsOrder(accs: Accounts, ops: seq<BlockOp>, log: seq<BlockOp>, more: Accounts,
                                          less: Accounts, fees: Fees)
    requires AtLeast(more, less) && ScanAccounts(accs, ops, Some(log), less, fees).ok
    ensures ScanAccounts(accs, ops, Some(log), more, fees).ok && !ScanAccounts(accs, ops, Some(log), more, fees).fatal
    ensures AtLeast(ScanAccounts(accs, ops, Some(log), more, fees).deltas,
                    ScanAccounts(accs, ops, Some(log), less, fees).deltas)
  {
    if ops != [] {
      var init, op := ops[..|ops| - 1], ops[|ops| - 1];
      ScanFatalIsNotOk(accs, init, Some(log), less, fees);
      ScanKeepsOrder(accs, init, log, more, less, fees);
      var m, l := ScanAccounts(accs, init, Some(log), more, fees).deltas,
                  ScanAccounts(accs, init, Some(log), less, fees).deltas;
      if op.kind.DeleteFile? {
        RefundKeepsOrder(m, l, op.filename, log + init, fees);
      } else {
        AwardKeepsOrder(m, l, op.creator, 0);
        AwardKeepsOrder(Award(m, op.creator, 0), Award(l, op.creator, 0), op.creator, -FeeOf(op, fees));
        assert BalanceOf(m, op.creator) >= BalanceOf(l, op.creator);
      }
    }
  }

  lemma {:induction false} ScanFatalIsNotOk(accs: Accounts, ops: seq<BlockOp>, log: Option<seq<BlockOp>>,
                                            start: Accounts, fees: Fees)
    ensures ScanAccounts(accs, ops, log, start, fees).fatal ==> !ScanAccounts(accs, ops, log, start, fees).ok
  {
    if ops != [] {
      ScanFatalIsNotOk(accs, ops[..|ops| - 1], log, start, fees);
    }
  }
}
