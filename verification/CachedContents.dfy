/**
 What the validator's cache holds of a file's data and creator after a block, compared with replay
 (miner/state/block_chain_validator.go:310-368). The earlier data is copied into an empty slice, and
 an append to a name that is in the snapshot takes its creator from there, even if the file was
 created again since.
 */
module CachedContents {
  import opened Wrappers
  import opened Blocks
  import opened FileSystemState
  import opened Overlay

  // The last operation of a block on a file, and the last creation of the file in the block.
  function LastOn(ops: seq<BlockOp>, n: Name): Option<BlockOp> {
    if ops == [] then None
    else if ops[|ops| - 1].filename == n then Some(ops[|ops| - 1])
    else LastOn(ops[..|ops| - 1], n)
  }

  function LastCreation(ops: seq<BlockOp>, n: Name): Option<BlockOp> {
    if ops == [] then None
    else if ops[|ops| - 1].filename == n && ops[|ops| - 1].kind.CreateFile? then Some(ops[|ops| - 1])
    else LastCreation(ops[..|ops| - 1], n)
  }

  // The block's last operation on the file is an append.
  predicate EndsInAppend(ops: seq<BlockOp>, n: Name) {
    LastOn(ops, n).Some? && LastOn(ops, n).value.kind.AppendFile?
  }

  ghost predicate Sized(files: Files) {
    forall n :: n in files ==> |files[n].data| == DATA_BLOCK_SIZE * files[n].records
  }

  lemma {:induction false} ReplayKeepsSized(files: Files, ops: seq<BlockOp>)
    requires Sized(files) && ApplyOps(files, ops, true, true).Some?
    ensures Sized(ApplyOps(files, ops, true, true).value)
  {
    if ops != [] {
      ReplayKeepsSized(files, ops[..|ops| - 1]);
    }
  }

  // One file that is alive after the operations `ops`, in the cache and in replay.
  ghost predicate Compares(fs: Files, files: Files, ops: seq<BlockOp>, held: FileInfo, after: FileInfo, n: Name) {
    && (match LastCreation(ops, n)
        case None => n in files && after.creator == files[n].creator
        case Some(op) => after.creator == op.creator)
    && match LastOn(ops, n)
       case None => n in fs && n in files && held == fs[n] && after == files[n]
       case Some(op) =>
         if op.kind.AppendFile? then
           && held.data == op.data && held.creator == (if n in fs then fs[n].creator else after.creator)
           && after.records == op.recordNumber + 1 && (after.records == 1 ==> after.data == op.data)
         else
           op.kind.CreateFile? && held.data == after.data == [] && held.creator == after.creator == op.creator
  }

  ghost predicate AllCompare(fs: Files, files: Files, ops: seq<BlockOp>, cache: Files, after: Files) {
    cache.Keys == after.Keys && forall n :: n in after ==> Compares(fs, files, ops, cache[n], after[n], n)
  }

  lemma OtherFileCompares(fs: Files, files: Files, init: seq<BlockOp>, op: BlockOp, held: FileInfo, after: FileInfo,
                          n: Name)
    requires Compares(fs, files, init, held, after, n) && op.filename != n
    ensures Compares(fs, files, init + [op], held, after, n)
  {
    assert (init + [op])[..|init|] == init;
  }

  lemma CreationCompares(fs: Files, files: Files, init: seq<BlockOp>, op: BlockOp)
    requires op.kind.CreateFile?
    ensures var f := FileInfo(op.creator, 0, []); Compares(fs, files, init + [op], f, f, op.filename)
  {
  }

  lemma AppendCompares(fs: Files, files: Files, init: seq<BlockOp>, op: BlockOp, held: FileInfo, before: FileInfo,
                       records: uint16)
    requires op.kind.AppendFile? && op.recordNumber == before.records < MAX_RECORD_COUNT
    requires |before.data| == DATA_BLOCK_SIZE * before.records
    requires Compares(fs, files, init, held, before, op.filename)
    ensures Compares(fs, files, init + [op],
                     FileInfo(if op.filename in fs then fs[op.filename].creator else held.creator, records, op.data),
                     FileInfo(before.creator, before.records + 1, before.data + op.data), op.filename)
  {
    assert (init + [op])[..|init|] == init;
    if before.records == 0 {
      assert before.data + op.data == op.data;
    }
  }

  lemma OthersCompare(fs: Files, files: Files, init: seq<BlockOp>, s: FsScan, after: Files, op: BlockOp, m: Name)
    requires AllCompare(fs, files, init, Fold(fs, s), after) && m != op.filename
    requires OverlayOp(fs, s.entries, s.deleted, op).Some? && ApplyOp(after, op, true, true).Some?
    ensures var cache, after' := Fold(fs, ScanFsOp(fs, s, op)), ApplyOp(after, op, true, true).value;
            (m in cache <==> m in after') && (m in after' ==> Compares(fs, files, init + [op], cache[m], after'[m], m))
  {
    hide Compares;
    if m in after {
      OtherFileCompares(fs, files, init, op, Fold(fs, s)[m], after[m], m);
    }
  }

  lemma TouchedCompares(fs: Files, files: Files, init: seq<BlockOp>, s: FsScan, after: Files, op: BlockOp)
    requires AllCompare(fs, files, init, Fold(fs, s), after) && Sized(after)
    requires OverlayOp(fs, s.entries, s.deleted, op).Some? && ApplyOp(after, op, true, true).Some?
    ensures var cache, after', n := Fold(fs, ScanFsOp(fs, s, op)), ApplyOp(after, op, true, true).value, op.filename;
            (n in cache <==> n in after') && (n in after' ==> Compares(fs, files, init + [op], cache[n], after'[n], n))
  {
    hide Compares;
    var cache := Fold(fs, s);
    match op.kind
    case CreateFile =>
      CreationCompares(fs, files, init, op);
    case AppendFile =>
      var n := op.filename;
      assert n in cache;
      AppendCompares(fs, files, init, op, cache[n], after[n], Fold(fs, ScanFsOp(fs, s, op))[n].records);
    case DeleteFile =>
  }

  // Both sides accept an operation and change one file.
  lemma StepCompares(fs: Files, files: Files, init: seq<BlockOp>, s: FsScan, after: Files, op: BlockOp)
    requires AllCompare(fs, files, init, Fold(fs, s), after) && Sized(after)
    requires OverlayOp(fs, s.entries, s.deleted, op).Some? && ApplyOp(after, op, true, true).Some?
    ensures var t := ScanFsOp(fs, s, op);
            AllCompare(fs, files, init + [op], Fold(fs, t), ApplyOp(after, op, true, true).value)
  {
    hide Compares, Fold, ScanFsOp, OverlayOp, ApplyOp;
    TouchedCompares(fs, files, init, s, after, op);
    forall m | m != op.filename
      ensures m in Fold(fs, ScanFsOp(fs, s, op)) <==> m in ApplyOp(after, op, true, true).value
      ensures m in ApplyOp(after, op, true, true).value ==>
                Compares(fs, files, init + [op],
                         Fold(fs, ScanFsOp(fs, s, op))[m], ApplyOp(after, op, true, true).value[m], m)
    {
      OthersCompare(fs, files, init, s, after, op, m);
    }
  }

  lemma {:induction false} ScanCompares(fs: Files, files: Files, ops: seq<BlockOp>)
    requires SameShape(fs, files) && Sized(files)
    requires ScanFs(fs, ops).ok && ApplyOps(files, ops, true, true).Some?
    ensures AllCompare(fs, files, ops, Fold(fs, ScanFs(fs, ops)), ApplyOps(files, ops, true, true).value)
  {
    if ops == [] {
      assert Fold(fs, EMPTY_SCAN) == fs;
    } else {
      var init, op := ops[..|ops| - 1], ops[|ops| - 1];
      ScanCompares(fs, files, init);
      ReplayKeepsSized(files, init);
      assert ops == init + [op];
      StepCompares(fs, files, init, ScanFs(fs, init), ApplyOps(files, init, true, true).value, op);
    }
  }

  // ---------- When the cache agrees with replay ----------

  // On a block that both sides accept, the cached data of a live file is that of replay exactly when
  // the block's last operation on the file is no append, or the append of record 0. A file that
  // the block does not touch keeps the data it had on either side.
  lemma CachedDataAgreesIff(fs: Files, files: Files, ops: seq<BlockOp>, n: Name)
    requires SameShape(fs, files) && Sized(files)
    requires ScanFs(fs, ops).ok && ApplyOps(files, ops, true, true).Some? && n in ApplyOps(files, ops, true, true).value
    ensures n in Fold(fs, ScanFs(fs, ops))
    ensures LastOn(ops, n).None? ==> n in fs
    ensures var held, after := Fold(fs, ScanFs(fs, ops))[n], ApplyOps(files, ops, true, true).value[n];
            held.data == after.data <==>
            if LastOn(ops, n).None? then fs[n].data == files[n].data
            else EndsInAppend(ops, n) ==> LastOn(ops, n).value.recordNumber == 0
  {
    ScanCompares(fs, files, ops);
    ReplayKeepsSized(files, ops);
    var held, after := Fold(fs, ScanFs(fs, ops))[n], ApplyOps(files, ops, true, true).value[n];
    assert Compares(fs, files, ops, held, after, n);
    assert |after.data| == DATA_BLOCK_SIZE * after.records;
  }

  // From the same creators, the cached creator of a live file is that of replay exactly when the
  // block does not create a file of the snapshot again, for another creator, and then append to it.
  lemma CachedCreatorAgreesIff(fs: Files, files: Files, ops: seq<BlockOp>, n: Name)
    requires SameShape(fs, files) && Sized(files)
    requires n in fs ==> fs[n].creator == files[n].creator
    requires ScanFs(fs, ops).ok && ApplyOps(files, ops, true, true).Some? && n in ApplyOps(files, ops, true, true).value
    ensures n in Fold(fs, ScanFs(fs, ops))
    ensures var held, after := Fold(fs, ScanFs(fs, ops))[n], ApplyOps(files, ops, true, true).value[n];
            held.creator == after.creator <==>
            !(n in fs && EndsInAppend(ops, n) && LastCreation(ops, n).Some?
              && LastCreation(ops, n).value.creator != fs[n].creator)
  {
    ScanCompares(fs, files, ops);
    assert Compares(fs, files, ops, Fold(fs, ScanFs(fs, ops))[n], ApplyOps(files, ops, true, true).value[n], n);
  }

  // ---------- Both differences happen ----------

  // Appending to a file that has records drops them from the cache.
  lemma CachedDataDiffers(n: Name, c: Name, d: RecordData)
    ensures var fs: Files := map[n := FileInfo(c, 1, d)];
            var ops := [BlockOp(AppendFile, c, n, 1, d)];
            && ScanFs(fs, ops).ok && ApplyOps(fs, ops, true, true).Some?
            && n in Fold(fs, ScanFs(fs, ops)) && n in ApplyOps(fs, ops, true, true).value
            && Fold(fs, ScanFs(fs, ops))[n].data != ApplyOps(fs, ops, true, true).value[n].data
  {
    var fs: Files := map[n := FileInfo(c, 1, d)];
    var op := BlockOp(AppendFile, c, n, 1, d);
    assert [op][..0] == [];
    ScanHasLast(fs, [op], 0);
    assert ApplyOps(fs, [op], true, true) == ApplyOp(fs, op, true, true);
    CachedDataAgreesIff(fs, fs, [op], n);
  }

  // A file that is deleted, created by another account and appended to keeps its first creator in
  // the cache.
  lemma CachedCreatorDiffers(n: Name, c: Name, other: Name, d: RecordData)
    requires |n| <= MAX_FILENAME_LENGTH && other != c
    ensures var fs: Files := map[n := FileInfo(c, 0, [])];
            var ops := [BlockOp(DeleteFile, c, n, 0, d),
                        BlockOp(CreateFile, other, n, 0, d), BlockOp(AppendFile, other, n, 0, d)];
            && ScanFs(fs, ops).ok && ApplyOps(fs, ops, true, true).Some?
            && n in Fold(fs, ScanFs(fs, ops)) && n in ApplyOps(fs, ops, true, true).value
            && Fold(fs, ScanFs(fs, ops))[n].creator == c && ApplyOps(fs, ops, true, true).value[n].creator == other
  {
    var fs: Files := map[n := FileInfo(c, 0, [])];
    var ops := [BlockOp(DeleteFile, c, n, 0, d),
                BlockOp(CreateFile, other, n, 0, d), BlockOp(AppendFile, other, n, 0, d)];
    var again := FileInfo(other, 0, []);
    assert ops[..2][..1] == ops[..1] && ops[..1][..0] == [];
    assert ApplyOps(fs, ops[..1], true, true) == Some(fs - {n});
    assert ApplyOps(fs, ops[..2], true, true) == Some(fs[n := again]) by {
      assert ApplyOps(fs, ops[..2], true, true) == ApplyOp(fs - {n}, ops[1], true, true);
      assert (fs - {n})[n := again] == fs[n := again];
    }
    assert ApplyOps(fs, ops, true, true) == ApplyOp(fs[n := again], ops[2], true, true);
    assert NoAppendToFull(fs, ops);
    VerdictsDiffer(fs, fs, ops);
    ScanHasLast(fs, ops, 2);
    assert n in ApplyOps(fs, ops, true, true).value;
    CachedCreatorAgreesIff(fs, fs, ops, n);
    ScanCompares(fs, fs, ops);
    assert Compares(fs, fs, ops, Fold(fs, ScanFs(fs, ops))[n], ApplyOps(fs, ops, true, true).value[n], n);
  }
}
