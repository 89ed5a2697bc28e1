/**
 What the backward walk of a deletion pays on any log, the logs that no replay accepts included: the
 loop trusts its caller (miner/state/block_chain_state.go:141-187).
 */
module RefundWalk {
  import opened Blocks
  import opened AccountsState

  // The operations on file `n` from index `from` on that are appends of account `a`.
  function AppendsBy(log: seq<BlockOp>, from: int, n: Name, a: Name): nat
    decreases |log|
  {
    if log == [] || |log| <= from then 0
    else
      var op := log[|log| - 1];
      AppendsBy(log[..|log| - 1], from, n, a)
      + if op.kind.AppendFile? && op.filename == n && op.creator == a then 1 else 0
  }

  // Index i is the last creation or deletion of the file, or -1 if there is none.
  ghost predicate LastBoundary(log: seq<BlockOp>, n: Name, i: int) {
    && -1 <= i < |log|
    && (i >= 0 ==> log[i].filename == n && (log[i].kind.CreateFile? || log[i].kind.DeleteFile?))
    && forall j :: i < j < |log| && log[j].filename == n ==> log[j].kind.AppendFile? || log[j].kind.UnknownOp?
  }

  // What account `a` gets for the boundary itself.
  function BoundaryFee(log: seq<BlockOp>, i: int, a: Name, fees: Fees): int
    requires i < |log|
  {
    if i >= 0 && log[i].kind.CreateFile? && log[i].creator == a then fees.create else 0
  }

  // The walk pays the appends after the last creation or deletion, and the creation if it ends at one.
  // Nothing before that is paid.
  lemma {:induction false} WalkPaysSinceBoundary(accs: Accounts, n: Name, log: seq<BlockOp>, i: int, fees: Fees,
                                                 a: Name)
    requires LastBoundary(log, n, i)
    ensures BalanceOf(Refund(accs, n, log, fees), a)
         == BalanceOf(accs, a) + BoundaryFee(log, i, a, fees) + fees.append * AppendsBy(log, i + 1, n, a)
    decreases |log|
  {
    if i == |log| - 1 {
      WalkEnds(accs, n, log, i, fees, a);
    } else {
      hide Refund, RefundTx, AppendsBy, Award, BoundaryFee;
      var init, tx := log[..|log| - 1], log[|log| - 1];
      WalkSteps(accs, n, log, i, fees, a);
      WalkPaysSinceBoundary(RefundTx(accs, tx, n, fees).0, n, init, i, fees, a);
    }
  }

  lemma WalkEnds(accs: Accounts, n: Name, log: seq<BlockOp>, i: int, fees: Fees, a: Name)
    requires LastBoundary(log, n, i) && i == |log| - 1
    ensures BalanceOf(Refund(accs, n, log, fees), a) == BalanceOf(accs, a) + BoundaryFee(log, i, a, fees)
    ensures AppendsBy(log, i + 1, n, a) == 0
  {
  }

  lemma WalkSteps(accs: Accounts, n: Name, log: seq<BlockOp>, i: int, fees: Fees, a: Name)
    requires LastBoundary(log, n, i) && i < |log| - 1
    ensures var init, next := log[..|log| - 1], RefundTx(accs, log[|log| - 1], n, fees).0;
            && LastBoundary(init, n, i) && Refund(accs, n, log, fees) == Refund(next, n, init, fees)
            && BoundaryFee(log, i, a, fees) == BoundaryFee(init, i, a, fees)
            && BalanceOf(next, a) + fees.append * AppendsBy(init, i + 1, n, a)
               == BalanceOf(accs, a) + fees.append * AppendsBy(log, i + 1, n, a)
  {
    var k := AppendsBy(log[..|log| - 1], i + 1, n, a);
    assert fees.append * (k + 1) == fees.append * k + fees.append;
  }
}
