/**
 Which pending jobs survive the filter, said without the overlay and without differences: one pass
 keeps the jobs that replay accepts one after the other and then those that can be paid one after the
 other (miner/state/block_chain_validator.go:231-249).
 */
module JobFilter {
  import opened Wrappers
  import opened Sequences
  import opened Blocks
  import opened FileSystemState
  import opened AccountsState
  import opened Overlay
  import opened Deltas
  import opened ConfirmedView
  import opened JobSet

  // ---------- The file filter ----------

  // An append to a file that had 65535 records before the list.
  predicate AppendsToFull(before: Files, op: BlockOp) {
    op.kind.AppendFile? && op.filename in before && before[op.filename].records == 65535
  }

  // The jobs that replay accepts one after the other, without those that append to a file that was
  // full before the list, and the files after them.
  function KeepLegal(files: Files, ops: seq<BlockOp>): (Files, seq<BlockOp>) {
    if ops == [] then (files, [])
    else
      var (g, kept) := KeepLegal(files, ops[..|ops| - 1]);
      var op := ops[|ops| - 1];
      match ApplyOp(g, op, true, true)
      case Some(next) => if AppendsToFull(files, op) then (g, kept) else (next, kept + [op])
      case None => (g, kept)
  }

  lemma {:induction false} KeptIsLegal(files: Files, ops: seq<BlockOp>)
    ensures ApplyOps(files, KeepLegal(files, ops).1, true, true) == Some(KeepLegal(files, ops).0)
  {
    if ops != [] {
      var (g, kept) := KeepLegal(files, ops[..|ops| - 1]);
      KeptIsLegal(files, ops[..|ops| - 1]);
      assert (kept + [ops[|ops| - 1]])[..|kept|] == kept;
    }
  }

  lemma JobIsLegalIff(fs: Files, files: Files, s: FsScan, g: Files, op: BlockOp)
    requires SameShape(fs, files) && SameShape(Fold(fs, s), g)
    requires op.kind.AppendFile? ==> op.recordNumber != MAX_RECORD_COUNT
    ensures OverlayOp(fs, s.entries, s.deleted, op).Some? <==>
            ApplyOp(g, op, true, true).Some? && !AppendsToFull(files, op)
    ensures OverlayOp(fs, s.entries, s.deleted, op).Some? ==>
              SameShape(Fold(fs, ScanFsOp(fs, s, op)), ApplyOp(g, op, true, true).value)
  {
    hide OverlayOp, ApplyOp, SameShape;
    OverlayStep(fs, s, g, op);
    GuardsOfOne(fs, op);
    FullnessAgrees(fs, files, op);
  }

  lemma FullnessAgrees(fs: Files, files: Files, op: BlockOp)
    requires SameShape(fs, files)
    ensures AppendsToFull(fs, op) <==> AppendsToFull(files, op)
  {
  }

  // From a cache with the files and record counts of replay, the file filter keeps a job exactly when
  // replay accepts it after the jobs kept before it and it does not append to a file that is full. Jobs
  // numbered 65535 are left aside (see OverlayAcceptsTooMany).
  lemma {:induction false} FileFilterKeepsLegal(fs: Files, files: Files, ops: seq<BlockOp>)
    requires SameShape(fs, files) && NoLastRecord(ops)
    ensures ScanFs(fs, ops).valid == KeepLegal(files, ops).1
    ensures SameShape(Fold(fs, ScanFs(fs, ops)), KeepLegal(files, ops).0)
  {
    if ops == [] {
      assert Fold(fs, EMPTY_SCAN) == fs;
    } else {
      hide OverlayOp, ApplyOp, SameShape, AppendsToFull;
      var init, op := ops[..|ops| - 1], ops[|ops| - 1];
      FileFilterKeepsLegal(fs, files, init);
      JobIsLegalIff(fs, files, ScanFs(fs, init), KeepLegal(files, init).0, op);
    }
  }

  // ---------- The account filter ----------

  // The jobs that can be paid one after the other, and the balances after them. A deletion is kept and
  // pays back what the walk over the earlier operations finds, the rejected jobs of the list included.
  function KeepPaid(balances: Accounts, ops: seq<BlockOp>, log: seq<BlockOp>, fees: Fees): (Accounts, seq<BlockOp>) {
    if ops == [] then (balances, [])
    else
      var init, op := ops[..|ops| - 1], ops[|ops| - 1];
      var (rest, kept) := KeepPaid(balances, init, log, fees);
      match op.kind
      case CreateFile =>
        if BalanceOf(rest, op.creator) < fees.create then (rest, kept)
        else (Award(rest, op.creator, -fees.create), kept + [op])
      case AppendFile =>
        if BalanceOf(rest, op.creator) < fees.append then (rest, kept)
        else (Award(rest, op.creator, -fees.append), kept + [op])
      case DeleteFile => (Refund(rest, op.filename, log + init, fees), kept + [op])
      case UnknownOp => (rest, kept)
  }

  // Balances plus differences.
  ghost predicate Sums(accs: Accounts, deltas: Accounts, balances: Accounts) {
    forall a :: BalanceOf(accs, a) + BalanceOf(deltas, a) == BalanceOf(balances, a)
  }

  lemma AwardOfSum(accs: Accounts, deltas: Accounts, balances: Accounts, a: Name, v: int)
    requires Sums(accs, deltas, balances)
    ensures Sums(accs, Award(deltas, a, v), Award(balances, a, v))
  {
    forall x ensures BalanceOf(accs, x) + BalanceOf(Award(deltas, a, v), x) == BalanceOf(Award(balances, a, v), x) {
      assert BalanceOf(accs, x) + BalanceOf(deltas, x) == BalanceOf(balances, x);
    }
  }

  lemma {:induction false} RefundOfSum(accs: Accounts, deltas: Accounts, balances: Accounts, n: Name,
                                       log: seq<BlockOp>, fees: Fees)
    requires Sums(accs, deltas, balances)
    ensures Sums(accs, Refund(deltas, n, log, fees), Refund(balances, n, log, fees))
    decreases |log|
  {
    if log != [] {
      hide Sums, Award;
      var tx := log[|log| - 1];
      var (d, stop) := RefundTx(deltas, tx, n, fees);
      var (b, _) := RefundTx(balances, tx, n, fees);
      AwardOfSum(accs, deltas, balances, tx.creator, 0);
      AwardOfSum(accs, deltas, balances, tx.creator, fees.create);
      AwardOfSum(accs, deltas, balances, tx.creator, fees.append);
      assert Sums(accs, d, b);
      if !stop {
        RefundOfSum(accs, d, b, n, log[..|log| - 1], fees);
      }
    }
  }

  // The account that is entered with a difference of 0 has the same balance as before.
  lemma EntryOfSum(accs: Accounts, deltas: Accounts, balances: Accounts, a: Name)
    requires Sums(accs, deltas, balances)
    ensures Sums(accs, Award(deltas, a, 0), balances)
    ensures BalanceOf(accs, a) + Award(deltas, a, 0)[a] == BalanceOf(balances, a)
  {
    forall x ensures BalanceOf(accs, x) + BalanceOf(Award(deltas, a, 0), x) == BalanceOf(balances, x) {
      assert BalanceOf(accs, x) + BalanceOf(deltas, x) == BalanceOf(balances, x);
    }
    assert BalanceOf(accs, a) + BalanceOf(deltas, a) == BalanceOf(balances, a);
  }

  // One creation or append.
  lemma PaymentOfSum(accs: Accounts, s: AccountScan, op: BlockOp, log: Option<seq<BlockOp>>, balances: Accounts,
                     fees: Fees)
    requires Sums(accs, s.deltas, balances) && (op.kind.CreateFile? || op.kind.AppendFile?)
    ensures var t := ScanAccountOp(accs, s, op, log, fees);
            var fee := if op.kind.CreateFile? then fees.create else fees.append;
            t.fatal == s.fatal &&
            if BalanceOf(balances, op.creator) < fee then t.valid == s.valid && Sums(accs, t.deltas, balances)
            else t.valid == s.valid + [op] && Sums(accs, t.deltas, Award(balances, op.creator, -fee))
  {
    hide Sums, Award;
    EntryOfSum(accs, s.deltas, balances, op.creator);
    AwardOfSum(accs, Award(s.deltas, op.creator, 0), balances, op.creator, -FeeOf(op, fees));
  }

  lemma LastScanned(accs: Accounts, ops: seq<BlockOp>, log: seq<BlockOp>, start: Accounts, fees: Fees)
    requires ops != []
    ensures var init := ops[..|ops| - 1];
            var s := ScanAccounts(accs, init, Some(log), start, fees);
            ScanAccounts(accs, ops, Some(log), start, fees) ==
            if s.fatal then s else ScanAccountOp(accs, s, ops[|ops| - 1], Some(log + init), fees)
  {
  }

  // The account filter keeps a creation or an append exactly when the balance that is left covers its
  // fee, and every deletion.
  lemma {:induction false} AccountFilterKeepsPaid(accs: Accounts, ops: seq<BlockOp>, log: seq<BlockOp>, start: Accounts,
                                                  balances: Accounts, fees: Fees)
    requires KnownOps(ops) && Sums(accs, start, balances)
    ensures var s, r := ScanAccounts(accs, ops, Some(log), start, fees), KeepPaid(balances, ops, log, fees);
            s.valid == r.1 && !s.fatal && Sums(accs, s.deltas, r.0)
  {
    if ops != [] {
      hide Sums, Award, Refund, ScanAccounts;
      var init, op := ops[..|ops| - 1], ops[|ops| - 1];
      LastScanned(accs, ops, log, start, fees);
      AccountFilterKeepsPaid(accs, init, log, start, balances, fees);
      var s, rest := ScanAccounts(accs, init, Some(log), start, fees), KeepPaid(balances, init, log, fees).0;
      assert !op.kind.UnknownOp?;
      if op.kind.DeleteFile? {
        RefundOfSum(accs, s.deltas, rest, op.filename, log + init, fees);
      } else {
        hide ScanAccountOp;
        PaymentOfSum(accs, s, op, Some(log + init), rest, fees);
      }
    }
  }

  // ---------- One pass, and all of them ----------

  lemma {:induction false} LegalJobsAreKnown(files: Files, ops: seq<BlockOp>)
    ensures KnownOps(KeepLegal(files, ops).1)
  {
    if ops != [] {
      LegalJobsAreKnown(files, ops[..|ops| - 1]);
    }
  }

  lemma {:induction false} LegalJobsAreSome(files: Files, ops: seq<BlockOp>)
    requires NoLastRecord(ops)
    ensures NoLastRecord(KeepLegal(files, ops).1)
  {
    if ops != [] {
      LegalJobsAreSome(files, ops[..|ops| - 1]);
    }
  }

  // What a pass over a list of jobs keeps.
  function KeepAcceptable(files: Files, accs: Accounts, ops: seq<BlockOp>, log: seq<BlockOp>,
                          fees: Fees): seq<BlockOp> {
    KeepPaid(accs, KeepLegal(files, ops).1, log, fees).1
  }

  lemma OnePassKeepsAcceptable(fs: Files, files: Files, accs: Accounts, ops: seq<BlockOp>, log: seq<BlockOp>,
                               fees: Fees)
    requires SameShape(fs, files) && NoLastRecord(ops)
    ensures FilterOnce(fs, accs, ops, Some(log), fees) == KeepAcceptable(files, accs, ops, log, fees)
  {
    FileFilterKeepsLegal(fs, files, ops);
    LegalJobsAreKnown(files, ops);
    AccountFilterKeepsPaid(accs, KeepLegal(files, ops).1, log, map[], accs, fees);
  }

  // A pass repeated k times.
  function KeptAfter(files: Files, accs: Accounts, ops: seq<BlockOp>, log: seq<BlockOp>, fees: Fees,
                     k: nat): seq<BlockOp> {
    if k == 0 then ops
    else KeepAcceptable(files, accs, KeptAfter(files, accs, ops, log, fees, k - 1), log, fees)
  }

  lemma {:induction false} SubsequenceHasNoLastRecord(fs: Files, accs: Accounts, ops: seq<BlockOp>, log: seq<BlockOp>,
                                                      fees: Fees, k: nat)
    requires NoLastRecord(ops)
    ensures NoLastRecord(Passes(fs, accs, ops, Some(log), fees, k))
  {
    LaterPassIsSubsequence(fs, accs, ops, Some(log), fees, 0, k);
    var kept := Passes(fs, accs, ops, Some(log), fees, k);
    forall i | 0 <= i < |kept| && kept[i].kind.AppendFile? ensures kept[i].recordNumber != MAX_RECORD_COUNT {
      var j := SubsequenceElement(kept, ops, i);
    }
  }

  lemma PassSteps(fs: Files, files: Files, accs: Accounts, ops: seq<BlockOp>, log: seq<BlockOp>, fees: Fees, k: nat)
    ensures Passes(fs, accs, ops, Some(log), fees, 0) == KeptAfter(files, accs, ops, log, fees, 0) == ops
    ensures k > 0 ==>
              && Passes(fs, accs, ops, Some(log), fees, k)
              == FilterOnce(fs, accs, Passes(fs, accs, ops, Some(log), fees, k - 1), Some(log), fees)
              && KeptAfter(files, accs, ops, log, fees, k)
              == KeepAcceptable(files, accs, KeptAfter(files, accs, ops, log, fees, k - 1), log, fees)
  {
    hide FilterOnce, KeepAcceptable;
  }

  lemma {:induction false} PassesAreKept(fs: Files, files: Files, accs: Accounts, ops: seq<BlockOp>, log: seq<BlockOp>,
                                         fees: Fees, k: nat)
    requires SameShape(fs, files) && NoLastRecord(ops)
    ensures Passes(fs, accs, ops, Some(log), fees, k) == KeptAfter(files, accs, ops, log, fees, k)
  {
    hide *;
    PassSteps(fs, files, accs, ops, log, fees, k);
    if k > 0 {
      PassesAreKept(fs, files, accs, ops, log, fees, k - 1);
      SubsequenceHasNoLastRecord(fs, accs, ops, log, fees, k - 1);
      OnePassKeepsAcceptable(fs, files, accs, Passes(fs, accs, ops, Some(log), fees, k - 1), log, fees);
    }
  }

  // The jobs that survive the filter are those that as many passes as there are jobs keep, each pass
  // keeping the jobs that replay accepts and then those that can be paid, one after the other.
  lemma SurvivingJobs(fs: Files, files: Files, accs: Accounts, ops: seq<BlockOp>, log: seq<BlockOp>, fees: Fees)
    requires SameShape(fs, files) && NoLastRecord(ops)
    ensures FilterJobs(fs, accs, ops, Some(log), fees) == KeptAfter(files, accs, ops, log, fees, |ops|)
  {
    ResultOfPasses(fs, accs, ops, Some(log), fees, |ops|);
    PassesAreKept(fs, files, accs, ops, log, fees, |ops|);
  }

  // Two jobs that create one file: the first survives if its account can pay for it.
  lemma SecondCreationIsDropped(accs: Accounts, op: BlockOp, log: seq<BlockOp>, fees: Fees)
    requires op.kind.CreateFile? && |op.filename| <= 64 && BalanceOf(accs, op.creator) >= fees.create
    ensures FilterJobs(map[], accs, [op, op], Some(log), fees) == [op]
  {
    var fs: Files := map[];
    SecondCreationIsIllegal(op);
    FirstCreationIsPaid(accs, op, log, fees);
    OnePassKeepsAcceptable(fs, fs, accs, [op, op], log, fees);
    OnePassKeepsAcceptable(fs, fs, accs, [op], log, fees);
    FilterOnceShrinks(fs, accs, [op], Some(log), fees);
    OnePassIsEnough(fs, accs, [op, op], Some(log), fees);
  }

  lemma SecondCreationIsIllegal(op: BlockOp)
    requires op.kind.CreateFile? && |op.filename| <= 64
    ensures KeepLegal(map[], [op]).1 == [op] && KeepLegal(map[], [op, op]).1 == [op]
    ensures NoLastRecord([op]) && NoLastRecord([op, op])
  {
    hide KeepLegal;
    var fs: Files := map[];
    var one: Files := map[op.filename := FileInfo(op.creator, 0, [])];
    assert ApplyOp(fs, op, true, true) == Some(one);
    NothingIsKept(fs);
    KeepLegalSnoc(fs, [], op);
    KeepLegalSnoc(fs, [op], op);
    assert [] + [op] == [op] && [op] + [op] == [op, op];
  }

  lemma NothingIsKept(files: Files)
    ensures KeepLegal(files, []) == (files, [])
  {
  }

  lemma KeepLegalSnoc(files: Files, init: seq<BlockOp>, op: BlockOp)
    ensures KeepLegal(files, init + [op]) ==
            (match ApplyOp(KeepLegal(files, init).0, op, true, true)
             case None => KeepLegal(files, init)
             case Some(next) =>
               if AppendsToFull(files, op) then KeepLegal(files, init) else (next, KeepLegal(files, init).1 + [op]))
  {
    assert (init + [op])[..|init|] == init;
  }

  lemma FirstCreationIsPaid(accs: Accounts, op: BlockOp, log: seq<BlockOp>, fees: Fees)
    requires op.kind.CreateFile? && BalanceOf(accs, op.creator) >= fees.create
    ensures KeepPaid(accs, [op], log, fees).1 == [op]
  {
    assert [op][..0] == [];
    assert KeepPaid(accs, [op][..0], log, fees) == (accs, []);
  }
}
