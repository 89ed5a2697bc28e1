/**
 The validator's incremental file check (miner/state/block_chain_validator.go,
 `validateNewFSBlockOps`): a block is judged against a snapshot of the files, with the block's own
 changes kept in an overlay of new entries and deleted names. It must agree with replay, which
 changes the files themselves.
 */
module Overlay {
  import opened Wrappers
  import opened Blocks
  import opened FileSystemState

  // `entries` are the new or changed files of the block, `deleted` the names it deleted,
  // `valid` the operations kept so far, and `ok` is whether none was rejected.
  datatype FsScan = FsScan(entries: Files, deleted: set<Name>, valid: seq<BlockOp>, ok: bool)

  const EMPTY_SCAN := FsScan(map[], {}, [], true)

  // Adding one to a uint16.
  function Increment16(n: uint16): uint16 {
    if n == 0xFFFF then 0 else n + 1
  }

  // The overlay after an accepted operation, or None when it is rejected. The copy of the earlier
  // data goes into an empty slice, so an entry holds the data of the last append only.
  function OverlayOp(fs: Files, entries: Files, deleted: set<Name>, op: BlockOp): Option<(Files, set<Name>)> {
    var n := op.filename;
    match op.kind
    case CreateFile =>
      if |n| > MAX_FILENAME_LENGTH then None
      else if n in fs && n !in deleted then None
      else if n in entries && n !in deleted then None
      else Some((entries[n := FileInfo(op.creator, 0, [])], deleted - {n}))
    case AppendFile =>
      if n in deleted then None
      else if n in fs then
        if fs[n].records >= MAX_RECORD_COUNT then None
        else
          var current := if n in entries then entries[n].records else fs[n].records;
          if op.recordNumber != current then None
          else Some((entries[n := FileInfo(fs[n].creator, Increment16(current), op.data)], deleted))
      else if n in entries then
        if op.recordNumber != entries[n].records then None
        else Some((entries[n := FileInfo(entries[n].creator, Increment16(entries[n].records), op.data)], deleted))
      else None
    case DeleteFile =>
      if n in deleted then None
      else if n !in entries && n !in fs then None
      else Some((entries, deleted + {n}))
    case UnknownOp => None
  }

  function ScanFsOp(fs: Files, s: FsScan, op: BlockOp): FsScan {
    match OverlayOp(fs, s.entries, s.deleted, op)
    case None => s.(ok := false)
    case Some((entries, deleted)) => FsScan(entries, deleted, s.valid + [op], s.ok)
  }

  function ScanFs(fs: Files, ops: seq<BlockOp>): FsScan {
    if ops == [] then EMPTY_SCAN else ScanFsOp(fs, ScanFs(fs, ops[..|ops| - 1]), ops[|ops| - 1])
  }

  // `update`: the new entries are stored and then the deleted names are dropped.
  function Fold(fs: Files, s: FsScan): Files {
    fs + s.entries - s.deleted
  }

  // ---------- The loop ----------

  method ValidateNewFSBlockOps(fs: Files, bcs: seq<BlockOp>) returns (s: FsScan)
    ensures s == ScanFs(fs, bcs)
  {
    var res: Files := map[];
    var deletedFiles: set<Name> := {};
    var validOps: seq<BlockOp> := [];
    var ok := true;
    for i := 0 to |bcs|
      invariant ScanFs(fs, bcs[..i]) == FsScan(res, deletedFiles, validOps, ok)
    {
      var tx := bcs[i];
      assert bcs[..i + 1][..i] == bcs[..i];
      var n := tx.filename;
      match tx.kind {
        case CreateFile =>
          if |n| > MAX_FILENAME_LENGTH {
            ok := false;
            continue;
          }
          if n in fs {
            if n !in deletedFiles {
              ok := false;
              continue;
            }
          }
          if n in res {
            if n !in deletedFiles {
              ok := false;
              continue;
            }
          }
          res := res[n := FileInfo(tx.creator, 0, [])];
          validOps := validOps + [tx];
          deletedFiles := deletedFiles - {n};
        case AppendFile =>
          if n in deletedFiles {
            ok := false;
            continue;
          }
          if n in fs {
            var f := fs[n];
            if f.records >= MAX_RECORD_COUNT {
              ok := false;
              continue;
            }
            var newRecordNo := Increment16(f.records);
            if n in res {
              var fi := res[n];
              if tx.recordNumber != fi.records {
                ok := false;
                continue;
              }
              newRecordNo := Increment16(fi.records);
            } else if tx.recordNumber != f.records {
              ok := false;
              continue;
            }
            res := res[n := FileInfo(f.creator, newRecordNo, tx.data)];
            validOps := validOps + [tx];
          } else if n in res {
            var donkey := res[n];
            if tx.recordNumber != donkey.records {
              ok := false;
              continue;
            }
            res := res[n := FileInfo(donkey.creator, Increment16(donkey.records), tx.data)];
            validOps := validOps + [tx];
          } else {
            ok := false;
            continue;
          }
        case DeleteFile =>
          if n in deletedFiles {
            ok := false;
            continue;
          }
          if n !in res {
            if n !in fs {
              ok := false;
              continue;
            }
          }
          validOps := validOps + [tx];
          deletedFiles := deletedFiles + {n};
        case UnknownOp =>
          ok := false;
          continue;
      }
    }
    assert bcs[..|bcs|] == bcs;
    s := FsScan(res, deletedFiles, validOps, ok);
  }

  // ---------- Agreement with replay ----------

  // The same files with the same numbers of records. Creators and data are not compared: the
  // validator never reads them, and they can differ (see the module CachedContents).
  ghost predicate SameShape(x: Files, y: Files) {
    x.Keys == y.Keys && forall n :: n in x ==> x[n].records == y[n].records
  }

  // The overlay never refuses an append for its length except by the count in the snapshot.
  predicate NoAppendToFull(fs: Files, ops: seq<BlockOp>) {
    forall i :: 0 <= i < |ops| && ops[i].kind.AppendFile? ==>
      ops[i].filename in fs ==> fs[ops[i].filename].records != MAX_RECORD_COUNT
  }

  // The record number that replay never accepts, since it would be the 65536th record.
  predicate NoLastRecord(ops: seq<BlockOp>) {
    forall i :: 0 <= i < |ops| && ops[i].kind.AppendFile? ==> ops[i].recordNumber != MAX_RECORD_COUNT
  }

  ghost predicate Agrees(fs: Files, files: Files, ops: seq<BlockOp>) {
    && (ScanFs(fs, ops).ok && NoLastRecord(ops) <==> ApplyOps(files, ops, true, true).Some? && NoAppendToFull(fs, ops))
    && (ScanFs(fs, ops).ok && NoLastRecord(ops) ==>
          SameShape(Fold(fs, ScanFs(fs, ops)), ApplyOps(files, ops, true, true).value))
  }

  lemma GuardsOfOne(fs: Files, op: BlockOp)
    ensures NoLastRecord([op]) <==> (op.kind.AppendFile? ==> op.recordNumber != MAX_RECORD_COUNT)
    ensures NoAppendToFull(fs, [op])
       <==> (op.kind.AppendFile? && op.filename in fs ==> fs[op.filename].records != MAX_RECORD_COUNT)
  {
    assert [op][0] == op;
  }

  // The file of the operation, seen through the overlay.
  lemma ThroughOverlay(fs: Files, s: FsScan, files: Files, n: Name)
    requires SameShape(Fold(fs, s), files)
    ensures n in files <==> n !in s.deleted && (n in s.entries || n in fs)
    ensures n in files ==> files[n].records == if n in s.entries then s.entries[n].records else fs[n].records
  {
    assert n in Fold(fs, s) <==> n in files;
  }

  lemma OverlayVerdict(fs: Files, s: FsScan, files: Files, op: BlockOp)
    requires SameShape(Fold(fs, s), files)
    ensures OverlayOp(fs, s.entries, s.deleted, op).Some? && NoLastRecord([op])
       <==> ApplyOp(files, op, true, true).Some? && NoAppendToFull(fs, [op])
  {
    hide NoLastRecord, NoAppendToFull, SameShape;
    GuardsOfOne(fs, op);
    ThroughOverlay(fs, s, files, op.filename);
  }

  lemma OverlayShape(fs: Files, s: FsScan, files: Files, op: BlockOp)
    requires SameShape(Fold(fs, s), files) && ApplyOp(files, op, true, true).Some?
    requires OverlayOp(fs, s.entries, s.deleted, op).Some?
    ensures var o := OverlayOp(fs, s.entries, s.deleted, op).value;
            SameShape(Fold(fs, s.(entries := o.0, deleted := o.1)), ApplyOp(files, op, true, true).value)
  {
    ThroughOverlay(fs, s, files, op.filename);
  }

  lemma OverlayStep(fs: Files, s: FsScan, files: Files, op: BlockOp)
    requires SameShape(Fold(fs, s), files)
    ensures var o, r := OverlayOp(fs, s.entries, s.deleted, op), ApplyOp(files, op, true, true);
            && (o.Some? && NoLastRecord([op]) <==> r.Some? && NoAppendToFull(fs, [op]))
            && (o.Some? && NoLastRecord([op]) ==>
                  SameShape(Fold(fs, s.(entries := o.value.0, deleted := o.value.1)), r.value))
  {
    hide OverlayOp, ApplyOp, SameShape, NoLastRecord, NoAppendToFull;
    OverlayVerdict(fs, s, files, op);
    if OverlayOp(fs, s.entries, s.deleted, op).Some? && ApplyOp(files, op, true, true).Some? {
      OverlayShape(fs, s, files, op);
    }
  }

  // The overlay accepts a block of operations, none of them an append numbered 65535, exactly when
  // replay accepts them one by one and none appends to a file that is full in the snapshot; and then
  // folding the overlay into the snapshot gives the files of replay.
  lemma {:induction false} OverlayAgreesWithReplay(fs: Files, files: Files, ops: seq<BlockOp>)
    requires SameShape(fs, files)
    ensures Agrees(fs, files, ops)
  {
    if ops != [] {
      var init, op := ops[..|ops| - 1], ops[|ops| - 1];
      OverlayAgreesWithReplay(fs, files, init);
      assert ops == init + [op];
      GuardsSplit(fs, init, op);
      if ScanFs(fs, init).ok && NoLastRecord(init) {
        OverlayStep(fs, ScanFs(fs, init), ApplyOps(files, init, true, true).value, op);
      }
    } else {
      assert Fold(fs, EMPTY_SCAN) == fs;
    }
  }

  lemma GuardsSplit(fs: Files, init: seq<BlockOp>, op: BlockOp)
    ensures NoLastRecord(init + [op]) <==> NoLastRecord(init) && NoLastRecord([op])
    ensures NoAppendToFull(fs, init + [op]) <==> NoAppendToFull(fs, init) && NoAppendToFull(fs, [op])
  {
    var ops := init + [op];
    assert ops[|init|] == op == [op][0];
    forall i | 0 <= i < |init| ensures ops[i] == init[i] {}
  }

  // The two verdicts differ exactly in two cases, each visible before the call.
  lemma VerdictsDiffer(fs: Files, files: Files, ops: seq<BlockOp>)
    requires SameShape(fs, files)
    ensures ApplyOps(files, ops, true, true).Some? ==> (ScanFs(fs, ops).ok <==> NoAppendToFull(fs, ops))
    ensures ScanFs(fs, ops).ok ==> (ApplyOps(files, ops, true, true).Some? <==> NoLastRecord(ops))
  {
    OverlayAgreesWithReplay(fs, files, ops);
    if ApplyOps(files, ops, true, true).Some? {
      ReplayHasNoLastRecord(files, ops);
    }
    if ScanFs(fs, ops).ok {
      ScanHasNoAppendToFull(fs, ops);
    }
  }

  lemma {:induction false} ReplayHasNoLastRecord(files: Files, ops: seq<BlockOp>)
    requires ApplyOps(files, ops, true, true).Some?
    ensures NoLastRecord(ops)
  {
    if ops != [] {
      ReplayHasNoLastRecord(files, ops[..|ops| - 1]);
    }
  }

  lemma {:induction false} ScanHasNoAppendToFull(fs: Files, ops: seq<BlockOp>)
    requires ScanFs(fs, ops).ok
    ensures NoAppendToFull(fs, ops)
  {
    if ops != [] {
      ScanHasNoAppendToFull(fs, ops[..|ops| - 1]);
    }
  }

  // ---------- The two cases happen ----------

  // A file with 65534 records and a block with the next two appends: the overlay accepts the second
  // one and the count wraps to zero, while replay refuses the block.
  lemma OverlayAcceptsTooMany(n: Name, c: Name, data: seq<Byte>, d: RecordData)
    ensures var fs: Files := map[n := FileInfo(c, 0xFFFE, data)];
            var ops := [BlockOp(AppendFile, c, n, 0xFFFE, d), BlockOp(AppendFile, c, n, 0xFFFF, d)];
            && ScanFs(fs, ops).ok && Fold(fs, ScanFs(fs, ops))[n].records == 0
            && ApplyOps(fs, ops, true, true).None?
  {
    var fs: Files := map[n := FileInfo(c, 0xFFFE, data)];
    var ops := [BlockOp(AppendFile, c, n, 0xFFFE, d), BlockOp(AppendFile, c, n, 0xFFFF, d)];
    assert ops[..1] == [ops[0]] && [ops[0]][..0] == [];
    assert ScanFs(fs, [ops[0]]) == FsScan(map[n := FileInfo(c, 0xFFFF, d)], {}, [ops[0]], true);
    ScanHasLast(fs, ops, 1);
    assert ScanFs(fs, ops).ok;
    VerdictsDiffer(fs, fs, ops);
  }

  lemma ScanHasLast(fs: Files, ops: seq<BlockOp>, i: nat)
    requires i == |ops| - 1
    ensures ScanFs(fs, ops) == ScanFsOp(fs, ScanFs(fs, ops[..i]), ops[i])
  {
  }

  // A full file that is deleted, created again and appended to in one block: replay accepts the block
  // and the overlay refuses it.
  lemma OverlayRefusesFreshFile(n: Name, c: Name, data: seq<Byte>, d: RecordData)
    requires |n| <= MAX_FILENAME_LENGTH
    ensures var fs: Files := map[n := FileInfo(c, 0xFFFF, data)];
            var ops := [BlockOp(DeleteFile, c, n, 0, d),
                        BlockOp(CreateFile, c, n, 0, d), BlockOp(AppendFile, c, n, 0, d)];
            !ScanFs(fs, ops).ok && ApplyOps(fs, ops, true, true).Some?
  {
    var fs: Files := map[n := FileInfo(c, 0xFFFF, data)];
    var ops := [BlockOp(DeleteFile, c, n, 0, d), BlockOp(CreateFile, c, n, 0, d), BlockOp(AppendFile, c, n, 0, d)];
    assert ops[..2][..1] == ops[..1] && ops[..1][..0] == [];
    assert ApplyOps(fs, ops[..1], true, true) == Some(fs - {n});
    assert ApplyOps(fs, ops[..2], true, true) == ApplyOp(fs - {n}, ops[1], true, true);
    assert ApplyOps(fs, ops, true, true).Some?;
    VerdictsDiffer(fs, fs, ops);
    assert ops[2].kind.AppendFile? && fs[ops[2].filename].records == MAX_RECORD_COUNT;
  }
}
