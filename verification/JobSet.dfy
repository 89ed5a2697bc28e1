/**
 The filter for pending jobs (miner/state/block_chain_validator.go, `ValidateJobSet`): the file
 filter and the account filter are applied in turn until the list stops shrinking.
 */
module JobSet {
  import opened Wrappers
  import opened Sequences
  import opened Blocks
  import opened FileSystemState
  import opened AccountsState
  import opened Overlay
  import opened Deltas

  function FilterOnce(fs: Files, accs: Accounts, ops: seq<BlockOp>, log: Option<seq<BlockOp>>,
                      fees: Fees): seq<BlockOp> {
    ScanAccounts(accs, ScanFs(fs, ops).valid, log, map[], fees).valid
  }

  function FilterJobs(fs: Files, accs: Accounts, ops: seq<BlockOp>, log: Option<seq<BlockOp>>, fees: Fees): seq<BlockOp>
    decreases |ops|
  {
    var next := FilterOnce(fs, accs, ops, log, fees);
    FilterOnceShrinks(fs, accs, ops, log, fees);
    if |next| == |ops| then next else FilterJobs(fs, accs, next, log, fees)
  }

  // ---------- Each filter keeps a subsequence ----------

  // Keeping an element of the input or dropping it: the kept list is whole exactly when nothing was
  // dropped so far and nothing is now.
  lemma KeepOrDrop(kept: seq<BlockOp>, init: seq<BlockOp>, op: BlockOp)
    requires Subsequence(kept, init)
    ensures Subsequence(kept, init + [op]) && kept != init + [op]
    ensures Subsequence(kept + [op], init + [op]) && (kept + [op] == init + [op] <==> kept == init)
  {
    SubsequenceSnoc(kept, init, op);
    assert kept == (kept + [op])[..|kept|] && init == (init + [op])[..|init|];
  }

  lemma FileOpKeepsOrDrops(fs: Files, s: FsScan, op: BlockOp)
    ensures var t := ScanFsOp(fs, s, op);
            (t.valid == s.valid + [op] && t.ok == s.ok) || (t.valid == s.valid && !t.ok)
  {
  }

  lemma {:induction false} FileFilter(fs: Files, ops: seq<BlockOp>)
    ensures Subsequence(ScanFs(fs, ops).valid, ops)
    ensures ScanFs(fs, ops).ok <==> ScanFs(fs, ops).valid == ops
  {
    if ops != [] {
      var init, op := ops[..|ops| - 1], ops[|ops| - 1];
      FileFilter(fs, init);
      assert ops == init + [op];
      FileOpKeepsOrDrops(fs, ScanFs(fs, init), op);
      KeepOrDrop(ScanFs(fs, init).valid, init, op);
    }
  }

  lemma AccountOpKeepsOrDrops(accs: Accounts, s: AccountScan, op: BlockOp, log: Option<seq<BlockOp>>, fees: Fees)
    requires !s.fatal
    ensures var t := ScanAccountOp(accs, s, op, log, fees);
            if t.fatal then t.valid == [] && !t.ok
            else (t.valid == s.valid + [op] && t.ok == s.ok) || (t.valid == s.valid && !t.ok)
  {
  }

  // The result of a scan of `ops`: a subsequence that is whole exactly when nothing was rejected.
  ghost predicate IsFilterResult(s: AccountScan, ops: seq<BlockOp>) {
    && Subsequence(s.valid, ops) && (s.ok <==> s.valid == ops)
    && (s.fatal ==> s.valid == [] && ops != [])
  }

  lemma AccountOpKeepsResult(accs: Accounts, s: AccountScan, init: seq<BlockOp>, op: BlockOp, log: Option<seq<BlockOp>>,
                             fees: Fees)
    requires IsFilterResult(s, init) && !s.fatal
    ensures IsFilterResult(ScanAccountOp(accs, s, op, log, fees), init + [op])
  {
    AccountOpKeepsOrDrops(accs, s, op, log, fees);
    KeepOrDrop(s.valid, init, op);
  }

  lemma {:induction false} AccountFilter(accs: Accounts, ops: seq<BlockOp>, log: Option<seq<BlockOp>>, start: Accounts,
                                         fees: Fees)
    ensures IsFilterResult(ScanAccounts(accs, ops, log, start, fees), ops)
  {
    if ops != [] {
      var init, op := ops[..|ops| - 1], ops[|ops| - 1];
      AccountFilter(accs, init, log, start, fees);
      assert ops == init + [op];
      var s := ScanAccounts(accs, init, log, start, fees);
      if !s.fatal {
        AccountOpKeepsResult(accs, s, init, op, Followed(log, init), fees);
      }
    }
  }

  lemma FilterOnceShrinks(fs: Files, accs: Accounts, ops: seq<BlockOp>, log: Option<seq<BlockOp>>, fees: Fees)
    ensures var next := FilterOnce(fs, accs, ops, log, fees);
            && Subsequence(next, ops) && |next| <= |ops|
            && (|next| == |ops| <==> ScanFs(fs, ops).ok && ScanAccounts(accs, ops, log, map[], fees).ok)
            && (|next| == |ops| ==> next == ops)
  {
    var kept := ScanFs(fs, ops).valid;
    FileFilter(fs, ops);
    AccountFilter(accs, kept, log, map[], fees);
    SubsequenceIsShorter(kept, ops);
    SubsequenceIsShorter(FilterOnce(fs, accs, ops, log, fees), kept);
    SubsequenceTransitive(FilterOnce(fs, accs, ops, log, fees), kept, ops);
  }

  // The result keeps the order of the jobs, and both filters leave all of it standing.
  lemma {:induction false} FilteredJobsPass(fs: Files, accs: Accounts, ops: seq<BlockOp>, log: Option<seq<BlockOp>>,
                                            fees: Fees)
    ensures var kept := FilterJobs(fs, accs, ops, log, fees);
            Subsequence(kept, ops) && ScanFs(fs, kept).ok && ScanAccounts(accs, kept, log, map[], fees).ok
    decreases |ops|
  {
    var next := FilterOnce(fs, accs, ops, log, fees);
    FilterOnceShrinks(fs, accs, ops, log, fees);
    if |next| != |ops| {
      FilteredJobsPass(fs, accs, next, log, fees);
      SubsequenceTransitive(FilterJobs(fs, accs, next, log, fees), next, ops);
    }
  }

  // Jobs are dropped only when one of them is rejected.
  lemma AcceptableJobsAreKept(fs: Files, accs: Accounts, ops: seq<BlockOp>, log: Option<seq<BlockOp>>, fees: Fees)
    ensures FilterJobs(fs, accs, ops, log, fees) == ops
       <==> ScanFs(fs, ops).ok && ScanAccounts(accs, ops, log, map[], fees).ok
  {
    FilterOnceShrinks(fs, accs, ops, log, fees);
    FilteredJobsPass(fs, accs, ops, log, fees);
  }

  // A block that carries exactly the filtered jobs passes both checks of `Validate` from the same
  // state: the miner's reward can only raise balances.
  lemma MinedJobsPass(fs: Files, accs: Accounts, ops: seq<BlockOp>, log: seq<BlockOp>, miner: Name, fees: Fees)
    requires fees.opReward >= 0
    ensures var kept := FilterJobs(fs, accs, ops, Some(log), fees);
            ScanFs(fs, kept).ok && ScanAccounts(accs, kept, Some(log), Award(map[], miner, fees.opReward), fees).ok
  {
    FilteredJobsPass(fs, accs, ops, Some(log), fees);
    ScanKeepsOrder(accs, FilterJobs(fs, accs, ops, Some(log), fees), log,
                   Award(map[], miner, fees.opReward), map[], fees);
  }

  // ---------- The passes ----------

  // The jobs after k passes through both filters.
  function Passes(fs: Files, accs: Accounts, ops: seq<BlockOp>, log: Option<seq<BlockOp>>, fees: Fees,
                  k: nat): seq<BlockOp> {
    if k == 0 then ops else FilterOnce(fs, accs, Passes(fs, accs, ops, log, fees, k - 1), log, fees)
  }

  lemma {:induction false} PassesShift(fs: Files, accs: Accounts, ops: seq<BlockOp>, log: Option<seq<BlockOp>>,
                                       fees: Fees, k: nat)
    ensures Passes(fs, accs, ops, log, fees, k + 1)
         == Passes(fs, accs, FilterOnce(fs, accs, ops, log, fees), log, fees, k)
  {
    if k > 0 {
      PassesShift(fs, accs, ops, log, fees, k - 1);
    }
  }

  // Some pass rejects a job in the file filter, or in the account filter.
  ghost predicate FilesReject(fs: Files, accs: Accounts, ops: seq<BlockOp>, log: Option<seq<BlockOp>>, fees: Fees) {
    exists k: nat :: !ScanFs(fs, Passes(fs, accs, ops, log, fees, k)).ok
  }

  ghost predicate AccountsReject(fs: Files, accs: Accounts, ops: seq<BlockOp>, log: Option<seq<BlockOp>>, fees: Fees) {
    exists k: nat :: AccountsRejectAt(fs, accs, Passes(fs, accs, ops, log, fees, k), log, fees)
  }

  predicate AccountsRejectAt(fs: Files, accs: Accounts, ops: seq<BlockOp>, log: Option<seq<BlockOp>>, fees: Fees) {
    !ScanAccounts(accs, ScanFs(fs, ops).valid, log, map[], fees).ok
  }

  lemma FilesRejectedNow(fs: Files, accs: Accounts, ops: seq<BlockOp>, log: Option<seq<BlockOp>>, fees: Fees)
    requires !ScanFs(fs, ops).ok
    ensures FilesReject(fs, accs, ops, log, fees)
  {
    assert Passes(fs, accs, ops, log, fees, 0) == ops;
  }

  lemma FilesRejectedLater(fs: Files, accs: Accounts, ops: seq<BlockOp>, log: Option<seq<BlockOp>>, fees: Fees)
    requires FilesReject(fs, accs, FilterOnce(fs, accs, ops, log, fees), log, fees)
    ensures FilesReject(fs, accs, ops, log, fees)
  {
    var next := FilterOnce(fs, accs, ops, log, fees);
    var k: nat :| !ScanFs(fs, Passes(fs, accs, next, log, fees, k)).ok;
    PassesShift(fs, accs, ops, log, fees, k);
  }

  lemma FilesRejectedSometime(fs: Files, accs: Accounts, ops: seq<BlockOp>, log: Option<seq<BlockOp>>, fees: Fees)
    requires FilesReject(fs, accs, ops, log, fees) && !(!ScanFs(fs, ops).ok)
    ensures FilesReject(fs, accs, FilterOnce(fs, accs, ops, log, fees), log, fees)
  {
    hide ScanFs, FilterOnce, AccountsRejectAt;
    var next := FilterOnce(fs, accs, ops, log, fees);
    var k: nat :| !ScanFs(fs, Passes(fs, accs, ops, log, fees, k)).ok;
    assert Passes(fs, accs, ops, log, fees, 0) == ops;
    assert k > 0;
    PassesShift(fs, accs, ops, log, fees, k - 1);
    assert !ScanFs(fs, Passes(fs, accs, next, log, fees, k - 1)).ok;
  }

  lemma FilesRejectNowOrLater(fs: Files, accs: Accounts, ops: seq<BlockOp>, log: Option<seq<BlockOp>>, fees: Fees)
    ensures FilesReject(fs, accs, ops, log, fees) <==>
            !ScanFs(fs, ops).ok
            || FilesReject(fs, accs, FilterOnce(fs, accs, ops, log, fees), log, fees)
  {
    hide FilesReject, FilterOnce, ScanFs, AccountsRejectAt;
    if !ScanFs(fs, ops).ok {
      FilesRejectedNow(fs, accs, ops, log, fees);
    } else if FilesReject(fs, accs, ops, log, fees) {
      FilesRejectedSometime(fs, accs, ops, log, fees);
    }
    if FilesReject(fs, accs, FilterOnce(fs, accs, ops, log, fees), log, fees) {
      FilesRejectedLater(fs, accs, ops, log, fees);
    }
  }

  lemma AccountsRejectedNow(fs: Files, accs: Accounts, ops: seq<BlockOp>, log: Option<seq<BlockOp>>, fees: Fees)
    requires AccountsRejectAt(fs, accs, ops, log, fees)
    ensures AccountsReject(fs, accs, ops, log, fees)
  {
    assert Passes(fs, accs, ops, log, fees, 0) == ops;
  }

  lemma AccountsRejectedLater(fs: Files, accs: Accounts, ops: seq<BlockOp>, log: Option<seq<BlockOp>>, fees: Fees)
    requires AccountsReject(fs, accs, FilterOnce(fs, accs, ops, log, fees), log, fees)
    ensures AccountsReject(fs, accs, ops, log, fees)
  {
    var next := FilterOnce(fs, accs, ops, log, fees);
    var k: nat :| AccountsRejectAt(fs, accs, Passes(fs, accs, next, log, fees, k), log, fees);
    PassesShift(fs, accs, ops, log, fees, k);
  }

  lemma AccountsRejectedSometime(fs: Files, accs: Accounts, ops: seq<BlockOp>, log: Option<seq<BlockOp>>, fees: Fees)
    requires AccountsReject(fs, accs, ops, log, fees) && !(AccountsRejectAt(fs, accs, ops, log, fees))
    ensures AccountsReject(fs, accs, FilterOnce(fs, accs, ops, log, fees), log, fees)
  {
    hide ScanFs, FilterOnce, AccountsRejectAt;
    var next := FilterOnce(fs, accs, ops, log, fees);
    var k: nat :| AccountsRejectAt(fs, accs, Passes(fs, accs, ops, log, fees, k), log, fees);
    assert Passes(fs, accs, ops, log, fees, 0) == ops;
    assert k > 0;
    PassesShift(fs, accs, ops, log, fees, k - 1);
    assert AccountsRejectAt(fs, accs, Passes(fs, accs, next, log, fees, k - 1), log, fees);
  }

  lemma AccountsRejectNowOrLater(fs: Files, accs: Accounts, ops: seq<BlockOp>, log: Option<seq<BlockOp>>, fees: Fees)
    ensures AccountsReject(fs, accs, ops, log, fees) <==>
            AccountsRejectAt(fs, accs, ops, log, fees)
            || AccountsReject(fs, accs, FilterOnce(fs, accs, ops, log, fees), log, fees)
  {
    hide AccountsReject, FilterOnce, ScanFs, AccountsRejectAt;
    if AccountsRejectAt(fs, accs, ops, log, fees) {
      AccountsRejectedNow(fs, accs, ops, log, fees);
    } else if AccountsReject(fs, accs, ops, log, fees) {
      AccountsRejectedSometime(fs, accs, ops, log, fees);
    }
    if AccountsReject(fs, accs, FilterOnce(fs, accs, ops, log, fees), log, fees) {
      AccountsRejectedLater(fs, accs, ops, log, fees);
    }
  }

  lemma {:induction false} StableUnderPasses(fs: Files, accs: Accounts, ops: seq<BlockOp>, log: Option<seq<BlockOp>>,
                                             fees: Fees, k: nat)
    requires FilterOnce(fs, accs, ops, log, fees) == ops
    ensures Passes(fs, accs, ops, log, fees, k) == ops
  {
    if k > 0 {
      StableUnderPasses(fs, accs, ops, log, fees, k - 1);
    }
  }

  // A list that a pass leaves whole is never rejected.
  lemma WholeIsNotRejected(fs: Files, accs: Accounts, ops: seq<BlockOp>, log: Option<seq<BlockOp>>, fees: Fees)
    requires FilterOnce(fs, accs, ops, log, fees) == ops
    ensures !FilesReject(fs, accs, ops, log, fees) && !AccountsReject(fs, accs, ops, log, fees)
  {
    FilterOnceShrinks(fs, accs, ops, log, fees);
    FileFilter(fs, ops);
    forall k: nat ensures Passes(fs, accs, ops, log, fees, k) == ops {
      StableUnderPasses(fs, accs, ops, log, fees, k);
    }
  }

  // The result is what is left after as many passes as there are jobs, or any larger number.
  lemma {:induction false} ResultOfPasses(fs: Files, accs: Accounts, ops: seq<BlockOp>, log: Option<seq<BlockOp>>,
                                          fees: Fees, k: nat)
    requires k >= |ops|
    ensures FilterJobs(fs, accs, ops, log, fees) == Passes(fs, accs, ops, log, fees, k)
    decreases |ops|
  {
    hide FilterOnce;
    var next := FilterOnce(fs, accs, ops, log, fees);
    FilterOnceShrinks(fs, accs, ops, log, fees);
    if |next| == |ops| {
      StableUnderPasses(fs, accs, ops, log, fees, k);
    } else {
      ResultOfPasses(fs, accs, next, log, fees, k - 1);
      PassesShift(fs, accs, ops, log, fees, k - 1);
    }
  }

  // If one pass leaves a list that the next pass accepts, that list is the result.
  lemma OnePassIsEnough(fs: Files, accs: Accounts, ops: seq<BlockOp>, log: Option<seq<BlockOp>>, fees: Fees)
    requires var next := FilterOnce(fs, accs, ops, log, fees);
             ScanFs(fs, next).ok && ScanAccounts(accs, next, log, map[], fees).ok
    ensures FilterJobs(fs, accs, ops, log, fees) == FilterOnce(fs, accs, ops, log, fees)
  {
    FilterOnceShrinks(fs, accs, ops, log, fees);
    FilterOnceShrinks(fs, accs, FilterOnce(fs, accs, ops, log, fees), log, fees);
  }

  lemma {:induction false} LaterPassIsSubsequence(fs: Files, accs: Accounts, ops: seq<BlockOp>,
                                                  log: Option<seq<BlockOp>>, fees: Fees, j: nat, k: nat)
    requires j <= k
    ensures Subsequence(Passes(fs, accs, ops, log, fees, k), Passes(fs, accs, ops, log, fees, j))
    decreases k
  {
    if j == k {
      SubsequenceOfItself(Passes(fs, accs, ops, log, fees, j));
    } else {
      LaterPassIsSubsequence(fs, accs, ops, log, fees, j, k - 1);
      FilterOnceShrinks(fs, accs, Passes(fs, accs, ops, log, fees, k - 1), log, fees);
      SubsequenceTransitive(Passes(fs, accs, ops, log, fees, k), Passes(fs, accs, ops, log, fees, k - 1),
                            Passes(fs, accs, ops, log, fees, j));
    }
  }

  // Every dropped job is dropped by one of the passes, over a list that contains the result.
  lemma {:induction false} DroppedByAPass(fs: Files, accs: Accounts, ops: seq<BlockOp>, log: Option<seq<BlockOp>>,
                                          fees: Fees, job: BlockOp) returns (j: nat)
    requires multiset(FilterJobs(fs, accs, ops, log, fees))[job] < multiset(ops)[job]
    ensures var before := Passes(fs, accs, ops, log, fees, j);
            && multiset(FilterOnce(fs, accs, before, log, fees))[job] < multiset(before)[job]
            && Subsequence(FilterJobs(fs, accs, ops, log, fees), before)
  {
    hide FilterOnce, FilterJobs, Subsequence;
    var k := |ops|;
    ResultOfPasses(fs, accs, ops, log, fees, k);
    j := k;
    while multiset(Passes(fs, accs, ops, log, fees, j))[job] < multiset(ops)[job]
      invariant j <= k
      invariant multiset(FilterJobs(fs, accs, ops, log, fees))[job] < multiset(ops)[job]
      invariant j < k ==> multiset(Passes(fs, accs, ops, log, fees, j + 1))[job] < multiset(ops)[job]
      decreases j
    {
      j := j - 1;
    }
    PassesOnlyDrop(fs, accs, ops, log, fees, j, job);
    LaterPassIsSubsequence(fs, accs, ops, log, fees, j, k);
  }

  lemma {:induction false} PassesOnlyDrop(fs: Files, accs: Accounts, ops: seq<BlockOp>, log: Option<seq<BlockOp>>,
                                          fees: Fees, k: nat, job: BlockOp)
    ensures multiset(Passes(fs, accs, ops, log, fees, k))[job] <= multiset(ops)[job]
  {
    LaterPassIsSubsequence(fs, accs, ops, log, fees, 0, k);
    SubsequenceHasFewer(Passes(fs, accs, ops, log, fees, k), ops, job);
  }
}
