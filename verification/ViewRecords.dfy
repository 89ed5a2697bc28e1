/**
 The records that the confirmed view shows, for every pair of thresholds. The view of a chain is the
 full replay of the operations that count, so its files are the lives of these operations, and the
 slices that the append listener and the read handler take are the data of appends
 (miner/state/tree_listener.go, miner/instance/miner_instance.go).
 */
module ViewRecords {
  import opened Wrappers
  import opened Sequences
  import opened Blocks
  import opened Chains
  import opened FileSystemState
  import opened FileLives
  import opened ConfirmedView

  // ---------- The view is the replay of the operations that count ----------

  predicate Counts(op: BlockOp, cc: bool, ca: bool) {
    match op.kind
    case CreateFile | DeleteFile => cc
    case AppendFile => ca
    case UnknownOp => true
  }

  function Counted(ops: seq<BlockOp>, cc: bool, ca: bool): seq<BlockOp> {
    if ops == [] then []
    else
      var init, op := Counted(ops[..|ops| - 1], cc, ca), ops[|ops| - 1];
      if Counts(op, cc, ca) then init + [op] else init
  }

  lemma OpCountsOrNot(fs: Files, op: BlockOp, cc: bool, ca: bool)
    ensures ApplyOp(fs, op, cc, ca) == if Counts(op, cc, ca) then ApplyOp(fs, op, true, true) else Some(fs)
  {
  }

  lemma CountedSnoc(fs: Files, kept: seq<BlockOp>, op: BlockOp)
    ensures ApplyOps(fs, kept + [op], true, true) ==
            (match ApplyOps(fs, kept, true, true) case None => None case Some(g) => ApplyOp(g, op, true, true))
  {
    assert (kept + [op])[..|kept|] == kept;
  }

  lemma {:induction false} CountedApplies(fs: Files, ops: seq<BlockOp>, cc: bool, ca: bool)
    ensures ApplyOps(fs, ops, cc, ca) == ApplyOps(fs, Counted(ops, cc, ca), true, true)
  {
    if ops != [] {
      hide ApplyOp;
      var init, op := ops[..|ops| - 1], ops[|ops| - 1];
      CountedApplies(fs, init, cc, ca);
      CountedSnoc(fs, Counted(init, cc, ca), op);
      if ApplyOps(fs, init, cc, ca).Some? {
        OpCountsOrNot(ApplyOps(fs, init, cc, ca).value, op, cc, ca);
      }
    }
  }

  // The operations of the first n blocks that count.
  function CountedLog(chain: seq<Block>, n: nat, creates: int, appends: int): seq<BlockOp>
    requires n <= |chain|
  {
    if n == 0 then []
    else CountedLog(chain, n - 1, creates, appends) + Counted(RecordsOf(chain[n - 1]), n - 1 < creates, n - 1 < appends)
  }

  lemma {:induction false} FilesUpToIsCounted(chain: seq<Block>, n: nat, creates: int, appends: int)
    requires n <= |chain| && GenesisOnlyFirst(chain, n)
    ensures FilesUpTo(chain, n, creates, appends) == Replayed(CountedLog(chain, n, creates, appends))
    decreases n
  {
    if n > 0 {
      var before, cc, ca := FilesUpTo(chain, n - 1, creates, appends), n - 1 < creates, n - 1 < appends;
      var ops := RecordsOf(chain[n - 1]);
      FilesUpToIsCounted(chain, n - 1, creates, appends);
      FilesUpToStep(chain, n, creates, appends);
      if before.Some? {
        CountedApplies(before.value, ops, cc, ca);
      }
      ApplyOpsConcat(map[], CountedLog(chain, n - 1, creates, appends), Counted(ops, cc, ca), true, true);
    }
  }

  // The operations of a chain that count under two thresholds.
  function ViewLog(chain: seq<Block>, confirmsCreate: int, confirmsAppend: int): seq<BlockOp> {
    CountedLog(chain, |chain|, |chain| - confirmsCreate, |chain| - confirmsAppend)
  }

  // The view exists exactly when the operations that count replay, and then it is their replay.
  lemma ViewIsReplayed(chain: seq<Block>, confirmsCreate: int, confirmsAppend: int)
    requires chain != []
    ensures Filesystem(chain, confirmsCreate, confirmsAppend) ==
            if GenesisFirst(chain) then Replayed(ViewLog(chain, confirmsCreate, confirmsAppend)) else None
  {
    if GenesisOnlyFirst(chain, |chain|) {
      FilesUpToIsCounted(chain, |chain|, |chain| - confirmsCreate, |chain| - confirmsAppend);
    } else {
      SecondGenesisFails(chain, |chain|, |chain| - confirmsCreate, |chain| - confirmsAppend);
    }
  }

  // ---------- They are some of the operations of the chain, in order ----------

  lemma {:induction false} CountedIsSubsequence(ops: seq<BlockOp>, cc: bool, ca: bool)
    ensures Subsequence(Counted(ops, cc, ca), ops)
  {
    if ops != [] {
      var init, op := ops[..|ops| - 1], ops[|ops| - 1];
      CountedIsSubsequence(init, cc, ca);
      SubsequenceSnoc(Counted(init, cc, ca), init, op);
      assert init + [op] == ops;
    }
  }

  lemma {:induction false} CountedLogIsSubsequence(chain: seq<Block>, n: nat, creates: int, appends: int)
    requires n <= |chain|
    ensures Subsequence(CountedLog(chain, n, creates, appends), LogBetween(chain, 0, n))
    decreases n
  {
    if n > 0 {
      var ops := RecordsOf(chain[n - 1]);
      CountedLogIsSubsequence(chain, n - 1, creates, appends);
      CountedIsSubsequence(ops, n - 1 < creates, n - 1 < appends);
      SubsequenceConcat(CountedLog(chain, n - 1, creates, appends), LogBetween(chain, 0, n - 1),
                        Counted(ops, n - 1 < creates, n - 1 < appends), ops);
    }
  }

  // ---------- What the view shows ----------

  // The files of the view are exactly those alive after the operations that count, with their
  // creators and every record.
  lemma ViewIsLives(chain: seq<Block>, confirmsCreate: int, confirmsAppend: int)
    requires Filesystem(chain, confirmsCreate, confirmsAppend).Some?
    ensures var log := ViewLog(chain, confirmsCreate, confirmsAppend);
            && LegalLog(log) && Subsequence(log, Log(chain))
            && forall n :: Describes(LifeOf(log, n), Filesystem(chain, confirmsCreate, confirmsAppend).value, n)
  {
    if chain != [] {
      ViewIsReplayed(chain, confirmsCreate, confirmsAppend);
    }
    ReplayIsLives(ViewLog(chain, confirmsCreate, confirmsAppend));
    CountedLogIsSubsequence(chain, |chain|, |chain| - confirmsCreate, |chain| - confirmsAppend);
  }

  // Record k of a file, as the 32-bit slice of the listener takes it.
  ghost predicate IsRecord(file: FileInfo, k: nat, d: RecordData) {
    && |file.data| == DATA_BLOCK_SIZE * file.records < 0x1_0000_0000
    && k < file.records && DATA_BLOCK_SIZE * (k + 1) <= |file.data|
    && file.data[DATA_BLOCK_SIZE * k..DATA_BLOCK_SIZE * (k + 1)] == d
  }

  lemma LivesHaveRecords(log: seq<BlockOp>, fs: Files, n: Name, k: nat)
    requires Describes(LifeOf(log, n), fs, n) && n in fs && k < fs[n].records
    ensures LifeOf(log, n).Alive? && k < |LifeOf(log, n).appended|
    ensures IsRecord(fs[n], k, LifeOf(log, n).appended[k].data)
  {
    FlattenPositions(LifeOf(log, n).appended, k);
  }

  // Every record of a view, under any thresholds, stays inside the data and inside 32 bits, and is the
  // data of an append of the chain to that file with that number; after it no operation on the file
  // counts but appends.
  lemma ViewRecordsComeFromAppends(chain: seq<Block>, confirmsCreate: int, confirmsAppend: int, n: Name, k: nat)
    returns (v: nat, i: nat)
    requires Filesystem(chain, confirmsCreate, confirmsAppend).Some?
    requires n in Filesystem(chain, confirmsCreate, confirmsAppend).value
    requires k < Filesystem(chain, confirmsCreate, confirmsAppend).value[n].records
    ensures i < |Log(chain)|
    ensures var op := Log(chain)[i]; op.kind.AppendFile? && op.filename == n && op.recordNumber == k
    ensures IsRecord(Filesystem(chain, confirmsCreate, confirmsAppend).value[n], k, Log(chain)[i].data)
    ensures var log := ViewLog(chain, confirmsCreate, confirmsAppend);
            && v < |log| && log[v] == Log(chain)[i]
            && forall j :: v < j < |log| && log[j].filename == n ==> log[j].kind.AppendFile?
  {
    var log := ViewLog(chain, confirmsCreate, confirmsAppend);
    ViewIsLives(chain, confirmsCreate, confirmsAppend);
    LivesHaveRecords(log, Filesystem(chain, confirmsCreate, confirmsAppend).value, n, k);
    v := RecordIsAppended(log, n, k);
    i := SubsequenceElement(log, Log(chain), v);
  }

  // An append that counts and is still part of its file's life is shown at its own record number.
  lemma ViewRecordsReadBack(chain: seq<Block>, confirmsCreate: int, confirmsAppend: int, v: nat)
    requires Filesystem(chain, confirmsCreate, confirmsAppend).Some?
    requires v < |ViewLog(chain, confirmsCreate, confirmsAppend)|
    requires ViewLog(chain, confirmsCreate, confirmsAppend)[v].kind.AppendFile?
    requires var log := ViewLog(chain, confirmsCreate, confirmsAppend);
             forall j :: v < j < |log| && log[j].filename == log[v].filename ==> log[j].kind.AppendFile?
    ensures var op, fs := ViewLog(chain, confirmsCreate, confirmsAppend)[v],
                          Filesystem(chain, confirmsCreate, confirmsAppend).value;
            op.filename in fs && IsRecord(fs[op.filename], op.recordNumber, op.data)
  {
    var log := ViewLog(chain, confirmsCreate, confirmsAppend);
    var fs := Filesystem(chain, confirmsCreate, confirmsAppend).value;
    var op := log[v];
    ViewIsLives(chain, confirmsCreate, confirmsAppend);
    AppendIsNumbered(log, v);
    assert Describes(LifeOf(log, op.filename), fs, op.filename);
    LivesHaveRecords(log, fs, op.filename, op.recordNumber);
  }

  // When creations need no more confirmations than appends, a record of the view belongs to the file's
  // life in the blocks whose creations and deletions count.
  lemma ViewRecordsAreAlive(chain: seq<Block>, confirmsCreate: int, confirmsAppend: int, n: Name, k: nat)
    returns (i: nat)
    requires confirmsCreate <= confirmsAppend && FullFilesystem(chain).Some?
    requires Filesystem(chain, confirmsCreate, confirmsAppend).Some?
    requires n in Filesystem(chain, confirmsCreate, confirmsAppend).value
    requires k < Filesystem(chain, confirmsCreate, confirmsAppend).value[n].records
    ensures var log := Log(chain[..ConfirmedLength(chain, confirmsCreate)]);
            && i < |log| && log[i].kind.AppendFile? && log[i].filename == n && log[i].recordNumber == k
            && (forall j :: i < j < |log| && log[j].filename == n ==> log[j].kind.AppendFile?)
            && IsRecord(Filesystem(chain, confirmsCreate, confirmsAppend).value[n], k, log[i].data)
  {
    var confirmed, view := chain[..ConfirmedLength(chain, confirmsCreate)],
                           Filesystem(chain, confirmsCreate, confirmsAppend).value;
    ViewIsTotalAndLags(chain, confirmsCreate, confirmsAppend);
    var full := FullFilesystem(confirmed).value;
    assert confirmed != [];
    i := RecordsComeFromAppends(confirmed, n, k);
    ViewIsLives(chain, confirmsCreate, confirmsAppend);
    LivesHaveRecords(ViewLog(chain, confirmsCreate, confirmsAppend), view, n, k);
    SameSlice(view[n].data, full[n].data, DATA_BLOCK_SIZE * k, DATA_BLOCK_SIZE * (k + 1));
  }

  lemma SameSlice(a: seq<Byte>, b: seq<Byte>, i: nat, j: nat)
    requires a <= b && i <= j <= |a|
    ensures a[i..j] == b[i..j]
  {
  }

  // The append listener reports an append exactly when the file's current life, among the operations
  // that count, was created by the listener's account and has that data as its record of that number.
  lemma ListenerReportsIff(chain: seq<Block>, confirmsCreate: int, confirmsAppend: int,
                           creator: Name, n: Name, k: uint16, d: RecordData)
    requires Filesystem(chain, confirmsCreate, confirmsAppend).Some?
    ensures var fs, life := Filesystem(chain, confirmsCreate, confirmsAppend).value,
                            LifeOf(ViewLog(chain, confirmsCreate, confirmsAppend), n);
            n in fs && fs[n].creator == creator && k < fs[n].records && IsRecord(fs[n], k, d) <==>
            life.Alive? && life.creator == creator && k < |life.appended| && life.appended[k].data == d
  {
    var log := ViewLog(chain, confirmsCreate, confirmsAppend);
    var fs := Filesystem(chain, confirmsCreate, confirmsAppend).value;
    ViewIsLives(chain, confirmsCreate, confirmsAppend);
    assert Describes(LifeOf(log, n), fs, n);
    if n in fs && k < fs[n].records {
      LivesHaveRecords(log, fs, n, k);
    }
  }

  // With thresholds of 0 every operation of a regular block counts.
  lemma {:induction false} EveryOpCounts(ops: seq<BlockOp>)
    ensures Counted(ops, true, true) == ops
  {
    if ops != [] {
      EveryOpCounts(ops[..|ops| - 1]);
    }
  }

  lemma {:induction false} FullLogCounts(chain: seq<Block>, n: nat, creates: int, appends: int)
    requires n <= |chain| && n <= creates && n <= appends
    ensures CountedLog(chain, n, creates, appends) == LogBetween(chain, 0, n)
    decreases n
  {
    if n > 0 {
      FullLogCounts(chain, n - 1, creates, appends);
      EveryOpCounts(RecordsOf(chain[n - 1]));
    }
  }

  lemma ViewLogWithoutThresholds(chain: seq<Block>, confirmsCreate: int, confirmsAppend: int)
    requires confirmsCreate <= 0 && confirmsAppend <= 0
    ensures ViewLog(chain, confirmsCreate, confirmsAppend) == Log(chain)
  {
    FullLogCounts(chain, |chain|, |chain| - confirmsCreate, |chain| - confirmsAppend);
  }
}
