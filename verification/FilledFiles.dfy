/** Blocks that create a file and fill it with records, what they cost and what they leave. */
module FilledFiles {
  import opened Wrappers
  import opened Blocks
  import opened FileSystemState
  import opened AccountsState
  import opened Deltas

  // The creation of file `n` and its first k appends, all for account `a`.
  function Fill(n: Name, a: Name, d: RecordData, k: nat): (ops: seq<BlockOp>)
    requires k <= MAX_RECORD_COUNT
    ensures |ops| == k + 1
  {
    if k == 0 then [BlockOp(CreateFile, a, n, 0, d)] else Fill(n, a, d, k - 1) + [BlockOp(AppendFile, a, n, k - 1, d)]
  }

  lemma FillOne(n: Name, a: Name, d: RecordData)
    ensures Fill(n, a, d, 1) == [BlockOp(CreateFile, a, n, 0, d), BlockOp(AppendFile, a, n, 0, d)]
  {
    assert Fill(n, a, d, 0) == [BlockOp(CreateFile, a, n, 0, d)];
  }

  // A single file with that many records.
  ghost predicate HasOnly(fs: Files, n: Name, records: nat) {
    fs.Keys == {n} && fs[n].records == records
  }

  lemma {:induction false} FillReplays(n: Name, a: Name, d: RecordData, k: nat)
    requires k <= MAX_RECORD_COUNT && |n| <= MAX_FILENAME_LENGTH
    ensures Replayed(Fill(n, a, d, k)).Some? && HasOnly(Replayed(Fill(n, a, d, k)).value, n, k)
  {
    var ops := Fill(n, a, d, k);
    if k == 0 {
      assert Replayed(ops[..0]) == Some(map[]);
      assert Replayed(ops) == ApplyOp(map[], ops[0], true, true);
    } else {
      FillReplays(n, a, d, k - 1);
      assert ops[..|ops| - 1] == Fill(n, a, d, k - 1);
    }
  }

  // ---------- Payments of one account ----------

  function FeesOf(ops: seq<BlockOp>, fees: Fees): int {
    if ops == [] then 0 else FeesOf(ops[..|ops| - 1], fees) + FeeOf(ops[|ops| - 1], fees)
  }

  // Creations and appends for account `a`.
  predicate PaidBy(ops: seq<BlockOp>, a: Name) {
    forall i :: 0 <= i < |ops| ==> (ops[i].kind.CreateFile? || ops[i].kind.AppendFile?) && ops[i].creator == a
  }

  lemma {:induction false} FillPaidBy(n: Name, a: Name, d: RecordData, k: nat)
    requires k <= MAX_RECORD_COUNT
    ensures PaidBy(Fill(n, a, d, k), a)
  {
    if k > 0 {
      FillPaidBy(n, a, d, k - 1);
    }
  }

  // An account that can pay all the fees pays them, in replay and in the scan of the validator.
  lemma {:induction false} PaysAll(accs: Accounts, ops: seq<BlockOp>, log: seq<BlockOp>, a: Name, fees: Fees)
    requires PaidBy(ops, a) && fees.create >= 0 && fees.append >= 0 && a in accs && FeesOf(ops, fees) <= accs[a]
    ensures SettleOps(accs, ops, log, fees) == Some(accs[a := accs[a] - FeesOf(ops, fees)])
  {
    if ops == [] {
      assert accs[a := accs[a]] == accs;
    } else {
      var init, op := ops[..|ops| - 1], ops[|ops| - 1];
      PaysAll(accs, init, log, a, fees);
      assert op.creator == a;
      var paid := accs[a := accs[a] - FeesOf(init, fees)];
      assert paid[a := paid[a] - FeeOf(op, fees)] == accs[a := accs[a] - FeesOf(ops, fees)];
    }
  }

  lemma {:induction false} ScansAll(accs: Accounts, ops: seq<BlockOp>, log: seq<BlockOp>, start: Accounts, a: Name,
                                    fees: Fees)
    requires PaidBy(ops, a) && fees.create >= 0 && fees.append >= 0
    requires FeesOf(ops, fees) <= BalanceOf(accs, a) + BalanceOf(start, a)
    ensures var s := ScanAccounts(accs, ops, Some(log), start, fees);
            s.ok && !s.fatal && BalanceOf(s.deltas, a) == BalanceOf(start, a) - FeesOf(ops, fees)
  {
    if ops != [] {
      ScansAll(accs, ops[..|ops| - 1], log, start, a, fees);
    }
  }

  // ---------- A deletion only pays ----------

  lemma {:induction false} RefundOnlyPays(accs: Accounts, n: Name, log: seq<BlockOp>, fees: Fees)
    requires fees.create >= 0 && fees.append >= 0
    ensures AtLeast(Refund(accs, n, log, fees), accs) && accs.Keys <= Refund(accs, n, log, fees).Keys
    decreases |log|
  {
    if log != [] {
      var (next, stop) := RefundTx(accs, log[|log| - 1], n, fees);
      assert AtLeast(next, accs);
      if !stop {
        RefundOnlyPays(next, n, log[..|log| - 1], fees);
      }
    }
  }
}
