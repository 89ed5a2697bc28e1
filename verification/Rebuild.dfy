/**
 When a rebuild of the validator's files, which goes through the confirmation thresholds, finds what
 full replay finds (miner/state/block_chain_validator.go:164-181).
 */
module Rebuild {
  import opened Blocks
  import opened Chains
  import opened FileSystemState
  import opened ConfirmedView
  import opened EarlyAppends
  import opened Overlay

  predicate OpConfirmed(op: BlockOp, onTop: int, confirmsCreate: int, confirmsAppend: int) {
    onTop >= if op.kind.AppendFile? then confirmsAppend else confirmsCreate
  }

  // Every operation of the chain has its number of confirmations. In particular a genesis block alone
  // is settled, and every chain is when the thresholds are 0.
  predicate Settled(c: seq<Block>, confirmsCreate: int, confirmsAppend: int) {
    forall i, j :: 0 <= i < |c| && 0 <= j < |RecordsOf(c[i])| ==>
      OpConfirmed(RecordsOf(c[i])[j], |c| - i - 1, confirmsCreate, confirmsAppend)
  }

  // ---------- A settled chain is rebuilt in full ----------

  lemma {:induction false} ConfirmedOpsCount(fs: Files, ops: seq<BlockOp>, cc: bool, ca: bool)
    requires forall j :: 0 <= j < |ops| ==> if ops[j].kind.AppendFile? then ca else cc
    ensures ApplyOps(fs, ops, cc, ca) == ApplyOps(fs, ops, true, true)
  {
    if ops != [] {
      ConfirmedOpsCount(fs, ops[..|ops| - 1], cc, ca);
    }
  }

  lemma {:induction false} SettledBlocksCount(c: seq<Block>, n: nat, confirmsCreate: int, confirmsAppend: int)
    requires n <= |c| && Settled(c, confirmsCreate, confirmsAppend)
    ensures FilesUpTo(c, n, |c| - confirmsCreate, |c| - confirmsAppend) == FilesUpTo(c, n, |c|, |c|)
    decreases n
  {
    if n > 0 {
      var creates, appends := |c| - confirmsCreate, |c| - confirmsAppend;
      SettledBlocksCount(c, n - 1, confirmsCreate, confirmsAppend);
      if n == 1 || !c[n - 1].kind.Genesis? {
        FilesUpToStep(c, n, creates, appends);
        FilesUpToStep(c, n, |c|, |c|);
        var ops := RecordsOf(c[n - 1]);
        forall j | 0 <= j < |ops| ensures if ops[j].kind.AppendFile? then n - 1 < appends else n - 1 < creates {
          assert OpConfirmed(ops[j], |c| - (n - 1) - 1, confirmsCreate, confirmsAppend);
        }
        if FilesUpTo(c, n - 1, |c|, |c|).Some? {
          ConfirmedOpsCount(FilesUpTo(c, n - 1, |c|, |c|).value, ops, n - 1 < creates, n - 1 < appends);
        }
      }
    }
  }

  lemma SettledRebuildIsFull(c: seq<Block>, confirmsCreate: int, confirmsAppend: int)
    requires Settled(c, confirmsCreate, confirmsAppend)
    ensures Filesystem(c, confirmsCreate, confirmsAppend) == FullFilesystem(c)
  {
    SettledBlocksCount(c, |c|, confirmsCreate, confirmsAppend);
  }

  // ---------- Without unconfirmed deletions, no other chain is ----------

  ghost predicate DeletesNothing(log: seq<BlockOp>) {
    forall i :: 0 <= i < |log| ==> !log[i].kind.DeleteFile?
  }

  ghost predicate DeletesNothingFrom(c: seq<Block>, k: nat)
    requires k <= |c|
  {
    DeletesNothing(LogBetween(c, k, |c|))
  }

  lemma NothingFromLater(c: seq<Block>, k: nat, m: nat)
    requires k <= m <= |c| && DeletesNothingFrom(c, k)
    ensures DeletesNothingFrom(c, m)
  {
    LogSplit(c, k, m, |c|);
    var early, late := LogBetween(c, k, m), LogBetween(c, m, |c|);
    forall i | 0 <= i < |late| ensures !late[i].kind.DeleteFile? {
      assert (early + late)[|early| + i] == late[i];
    }
  }

  // After the first q operations of a log, the operation at p >= q is still to come, and its effect
  // is visible at the end.
  lemma LaterOpShows(log: seq<BlockOp>, q: nat, p: nat)
    requires q <= p < |log| && Replayed(log).Some? && forall i :: q <= i < |log| ==> !log[i].kind.DeleteFile?
    ensures Replayed(log[..q]).Some?
    ensures var early, full, n := Replayed(log[..q]).value, Replayed(log).value, log[p].filename;
            && n in full
            && (log[p].kind.CreateFile? ==> n !in early)
            && (log[p].kind.AppendFile? ==> full[n].records > if n in early then early[n].records else 0)
  {
    var op, rest, between := log[p], log[p + 1..], log[q..p];
    assert log == (log[..p] + [op]) + rest;
    ApplyOpsConcat(map[], log[..p] + [op], rest, true, true);
    ApplyOpsConcat(map[], log[..p], [op], true, true);
    assert log[..p] == log[..q] + between;
    ApplyOpsConcat(map[], log[..q], between, true, true);
    var early, before := Replayed(log[..q]).value, Replayed(log[..p]).value;
    assert [op][..0] == [];
    assert ApplyOps(before, [op], true, true) == ApplyOp(before, op, true, true);
    GrowsWithoutDelete(ApplyOp(before, op, true, true).value, rest, op.filename, true, true);
    if op.filename in early {
      GrowsWithoutDelete(early, between, op.filename, true, true);
    }
  }

  lemma OpInLog(c: seq<Block>, i: nat, j: nat, k: nat)
    requires k <= i < |c| && j < |RecordsOf(c[i])|
    ensures var q, p := |LogBetween(c, 0, k)|, |LogBetween(c, 0, i)| + j;
            && q <= p < |Log(c)| && Log(c)[..q] == LogBetween(c, 0, k) && Log(c)[p] == RecordsOf(c[i])[j]
            && Log(c) == Log(c)[..q] + LogBetween(c, k, |c|)
  {
    LogSplit(c, 0, k, |c|);
    LogSplit(c, 0, i + 1, |c|);
    LogSplit(c, 0, k, i);
  }

  // An operation in block i >= k leaves a trace in the full state that the state after k blocks lacks.
  lemma LateOpShows(c: seq<Block>, i: nat, j: nat, k: nat)
    requires k <= i < |c| && j < |RecordsOf(c[i])| && FullFilesystem(c).Some? && DeletesNothingFrom(c, k)
    ensures FilesAt(c, k).Some?
    ensures var op, early, full := RecordsOf(c[i])[j], FilesAt(c, k).value, FullFilesystem(c).value;
            && op.filename in full
            && (op.kind.CreateFile? ==> op.filename !in early)
            && (op.kind.AppendFile? ==>
                 full[op.filename].records > if op.filename in early then early[op.filename].records else 0)
  {
    FullIsFilesAt(c);
    OpInLog(c, i, j, k);
    var log, q := Log(c), |LogBetween(c, 0, k)|;
    forall x | q <= x < |log| ensures !log[x].kind.DeleteFile? {
      assert log[x] == LogBetween(c, k, |c|)[x - q];
    }
    LaterOpShows(log, q, |LogBetween(c, 0, i)| + j);
  }

  lemma NoDeleteInBlock(c: seq<Block>, i: nat, j: nat, k: nat)
    requires k <= i < |c| && j < |RecordsOf(c[i])| && FullFilesystem(c).Some? && DeletesNothingFrom(c, k)
    ensures RecordsOf(c[i])[j].kind.CreateFile? || RecordsOf(c[i])[j].kind.AppendFile?
  {
    OpInLog(c, i, j, k);
    FullIsFilesAt(c);
    ReplayedIsKnown(Log(c));
    var q, p := |LogBetween(c, 0, k)|, |LogBetween(c, 0, i)| + j;
    assert Log(c)[p] == LogBetween(c, k, |c|)[p - q];
  }

  // ---------- When a rebuild is right ----------

  // The rebuild succeeds. With more confirmations for creations than for appends, every append that
  // counts has to fit a file whose creation counts.
  ghost predicate RebuildSucceeds(c: seq<Block>, confirmsCreate: int, confirmsAppend: int) {
    confirmsCreate <= confirmsAppend ||
    var kc, ka := ConfirmedLength(c, confirmsCreate), ConfirmedLength(c, confirmsAppend);
    FilesAt(c, kc).Some? && Fits(FilesAt(c, kc).value, LogBetween(c, kc, ka))
  }

  // What a rebuild counts for a file: the records confirmed in its life, none if the file is younger.
  ghost function RebuiltRecords(c: seq<Block>, confirmsCreate: int, confirmsAppend: int, n: Name): int {
    var kc, ka := ConfirmedLength(c, confirmsCreate), ConfirmedLength(c, confirmsAppend);
    if confirmsCreate <= confirmsAppend then
      if Survives(c, ka, kc, n) then FilesAt(c, ka).value[n].records else 0
    else
      if Survives(c, kc, kc, n) then FilesAt(c, kc).value[n].records + AppendsTo(LogBetween(c, kc, ka), n) else 0
  }

  // The rebuild has the files below the creation threshold and the records counted above.
  ghost predicate IsRebuilt(c: seq<Block>, confirmsCreate: int, confirmsAppend: int, view: Files) {
    && FilesAt(c, ConfirmedLength(c, confirmsCreate)).Some?
    && view.Keys == FilesAt(c, ConfirmedLength(c, confirmsCreate)).value.Keys
    && forall n :: n in view ==> view[n].records == RebuiltRecords(c, confirmsCreate, confirmsAppend, n)
  }

  lemma LateRebuild(c: seq<Block>, confirmsCreate: int, confirmsAppend: int)
    requires confirmsCreate <= confirmsAppend && FullFilesystem(c).Some?
    ensures Filesystem(c, confirmsCreate, confirmsAppend).Some?
    ensures IsRebuilt(c, confirmsCreate, confirmsAppend, Filesystem(c, confirmsCreate, confirmsAppend).value)
  {
    ViewIsTotalAndLags(c, confirmsCreate, confirmsAppend);
    FullPrefix(c, ConfirmedLength(c, confirmsCreate));
    ViewIsWindow(c, confirmsCreate, confirmsAppend);
    var view := Filesystem(c, confirmsCreate, confirmsAppend).value;
    forall n | n in view ensures view[n].records == RebuiltRecords(c, confirmsCreate, confirmsAppend, n) {
      if Survives(c, ConfirmedLength(c, confirmsAppend), ConfirmedLength(c, confirmsCreate), n) {
        SurvivorIsShown(c, confirmsCreate, confirmsAppend, n);
      } else {
        NewcomerIsEmpty(c, confirmsCreate, confirmsAppend, n);
      }
    }
  }

  lemma EarlyRebuild(c: seq<Block>, confirmsCreate: int, confirmsAppend: int)
    requires confirmsAppend < confirmsCreate && FullFilesystem(c).Some?
    ensures Filesystem(c, confirmsCreate, confirmsAppend).Some? <==> RebuildSucceeds(c, confirmsCreate, confirmsAppend)
    ensures RebuildSucceeds(c, confirmsCreate, confirmsAppend) ==>
              IsRebuilt(c, confirmsCreate, confirmsAppend, Filesystem(c, confirmsCreate, confirmsAppend).value)
  {
    hide Filesystem, FullFilesystem, FilesAt, Fits;
    EarlyViewExistsIff(c, confirmsCreate, confirmsAppend);
    assert LogBetween(c, ConfirmedLength(c, confirmsCreate), ConfirmedLength(c, confirmsCreate)) == [];
  }

  // For every chain that replays and every pair of thresholds: exactly when a rebuild succeeds, and
  // when it then has the files and record counts of full replay.
  lemma RebuildIsFullIff(c: seq<Block>, confirmsCreate: int, confirmsAppend: int)
    requires FullFilesystem(c).Some?
    ensures FilesAt(c, ConfirmedLength(c, confirmsCreate)).Some?
    ensures Filesystem(c, confirmsCreate, confirmsAppend).Some? <==> RebuildSucceeds(c, confirmsCreate, confirmsAppend)
    ensures RebuildSucceeds(c, confirmsCreate, confirmsAppend) ==>
              (SameShape(Filesystem(c, confirmsCreate, confirmsAppend).value, FullFilesystem(c).value) <==>
               && FilesAt(c, ConfirmedLength(c, confirmsCreate)).value.Keys == FullFilesystem(c).value.Keys
               && forall n :: n in FullFilesystem(c).value ==>
                    FullFilesystem(c).value[n].records == RebuiltRecords(c, confirmsCreate, confirmsAppend, n))
  {
    hide Filesystem, FullFilesystem, FilesAt, RebuiltRecords;
    FullPrefix(c, ConfirmedLength(c, confirmsCreate));
    if confirmsCreate <= confirmsAppend {
      LateRebuild(c, confirmsCreate, confirmsAppend);
    } else {
      EarlyRebuild(c, confirmsCreate, confirmsAppend);
    }
  }

  // ---------- Without unconfirmed deletions ----------

  function Min(x: nat, y: nat): nat {
    if x <= y then x else y
  }

  // The number of blocks on which every kind of operation is confirmed.
  function ConfirmedInFull(c: seq<Block>, confirmsCreate: int, confirmsAppend: int): nat {
    Min(ConfirmedLength(c, confirmsCreate), ConfirmedLength(c, confirmsAppend))
  }

  lemma FilesAtIsFull(c: seq<Block>, k: nat)
    requires FullFilesystem(c).Some? && k <= |c|
    ensures FilesAt(c, k).Some?
    ensures FullFilesystem(c) == ApplyOps(FilesAt(c, k).value, LogBetween(c, k, |c|), true, true)
  {
    FullIsFilesAt(c);
    FilesAtSplit(c, k, |c|);
  }

  lemma NoDeleteNoName(log: seq<BlockOp>, n: Name)
    requires DeletesNothing(log)
    ensures !Deletes(log, n)
  {
  }

  // A rebuild has no more records of a file than full replay of the blocks below the append threshold.
  lemma RebuiltIsEarlier(c: seq<Block>, confirmsCreate: int, confirmsAppend: int, n: Name)
    requires FullFilesystem(c).Some? && DeletesNothingFrom(c, ConfirmedInFull(c, confirmsCreate, confirmsAppend))
    ensures FilesAt(c, ConfirmedLength(c, confirmsAppend)).Some?
    ensures RebuiltRecords(c, confirmsCreate, confirmsAppend, n) <=
            (var early := FilesAt(c, ConfirmedLength(c, confirmsAppend)).value;
             if n in early then early[n].records else 0)
  {
    var kc, ka := ConfirmedLength(c, confirmsCreate), ConfirmedLength(c, confirmsAppend);
    FilesAtIsFull(c, kc);
    FilesAtIsFull(c, ka);
    if confirmsAppend < confirmsCreate && n in FilesAt(c, kc).value {
      FilesAtSplit(c, kc, ka);
      NoDeleteNoName(LogBetween(c, kc, |c|), n);
      NoDeletesWithin(c, kc, kc, ka, n);
      RecordsAdded(FilesAt(c, kc).value, LogBetween(c, kc, ka), n);
    }
  }

  lemma UnsettledIsDifferent(c: seq<Block>, confirmsCreate: int, confirmsAppend: int, i: nat, j: nat)
    requires FullFilesystem(c).Some? && DeletesNothingFrom(c, ConfirmedInFull(c, confirmsCreate, confirmsAppend))
    requires i < |c| && j < |RecordsOf(c[i])|
    requires !OpConfirmed(RecordsOf(c[i])[j], |c| - i - 1, confirmsCreate, confirmsAppend)
    requires Filesystem(c, confirmsCreate, confirmsAppend).Some?
    ensures !SameShape(Filesystem(c, confirmsCreate, confirmsAppend).value, FullFilesystem(c).value)
  {
    hide Filesystem, FullFilesystem, FilesAt, RebuiltRecords, DeletesNothingFrom;
    var kc, ka := ConfirmedLength(c, confirmsCreate), ConfirmedLength(c, confirmsAppend);
    var k := Min(kc, ka);
    RebuildIsFullIff(c, confirmsCreate, confirmsAppend);
    NoDeleteInBlock(c, i, j, k);
    if RecordsOf(c[i])[j].kind.CreateFile? {
      NothingFromLater(c, k, kc);
      LateOpShows(c, i, j, kc);
    } else {
      NothingFromLater(c, k, ka);
      LateOpShows(c, i, j, ka);
      RebuiltIsEarlier(c, confirmsCreate, confirmsAppend, RecordsOf(c[i])[j].filename);
    }
  }

  // For every pair of thresholds: if no block that a threshold still hides deletes a file, a rebuild
  // succeeds with the files and record counts of full replay exactly when the chain is settled.
  lemma RebuildIsFullIffSettled(c: seq<Block>, confirmsCreate: int, confirmsAppend: int)
    requires FullFilesystem(c).Some? && DeletesNothingFrom(c, ConfirmedInFull(c, confirmsCreate, confirmsAppend))
    ensures Filesystem(c, confirmsCreate, confirmsAppend).Some?
         && SameShape(Filesystem(c, confirmsCreate, confirmsAppend).value, FullFilesystem(c).value)
       <==> Settled(c, confirmsCreate, confirmsAppend)
  {
    if Settled(c, confirmsCreate, confirmsAppend) {
      SettledRebuildIsFull(c, confirmsCreate, confirmsAppend);
    } else if Filesystem(c, confirmsCreate, confirmsAppend).Some? {
      var i, j :| 0 <= i < |c| && 0 <= j < |RecordsOf(c[i])|
        && !OpConfirmed(RecordsOf(c[i])[j], |c| - i - 1, confirmsCreate, confirmsAppend);
      UnsettledIsDifferent(c, confirmsCreate, confirmsAppend, i, j);
    }
  }
}
