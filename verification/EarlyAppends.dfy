/**
 The confirmed view when appends need fewer confirmations than creations. It can then be an error:
 an append counts while the creation of its file does not.
 */
module EarlyAppends {
  import opened Blocks
  import opened Chains
  import opened FileSystemState
  import opened ConfirmedView

  function AppendsTo(ops: seq<BlockOp>, n: Name): nat {
    if ops == [] then 0
    else
      var op := ops[|ops| - 1];
      AppendsTo(ops[..|ops| - 1], n) + if op.kind.AppendFile? && op.filename == n then 1 else 0
  }

  // An append after `before` fits a file of `fs` when only appends have counted since.
  predicate FitsNext(fs: Files, before: seq<BlockOp>, op: BlockOp) {
    op.kind.AppendFile? ==>
      op.filename in fs
      && op.recordNumber == fs[op.filename].records + AppendsTo(before, op.filename) < MAX_RECORD_COUNT
  }

  ghost predicate Fits(fs: Files, ops: seq<BlockOp>) {
    forall i :: 0 <= i < |ops| ==> FitsNext(fs, ops[..i], ops[i])
  }

  lemma FitsSnoc(fs: Files, ops: seq<BlockOp>)
    requires ops != []
    ensures Fits(fs, ops) <==> Fits(fs, ops[..|ops| - 1]) && FitsNext(fs, ops[..|ops| - 1], ops[|ops| - 1])
  {
    var init := ops[..|ops| - 1];
    forall i | 0 <= i < |init| ensures init[..i] == ops[..i] && init[i] == ops[i] {}
  }

  // The same files, each with the records of the appends on top.
  ghost predicate Added(before: Files, ops: seq<BlockOp>, after: Files) {
    && after.Keys == before.Keys
    && forall n :: n in before ==> after[n].records == before[n].records + AppendsTo(ops, n)
  }

  // When only appends count, operations apply exactly when each append fits a file that was there, and
  // they add its records.
  lemma {:induction false} AppendsOnly(fs: Files, ops: seq<BlockOp>)
    requires KnownOps(ops)
    ensures ApplyOps(fs, ops, false, true).Some? <==> Fits(fs, ops)
    ensures Fits(fs, ops) ==> Added(fs, ops, ApplyOps(fs, ops, false, true).value)
  {
    if ops != [] {
      var init, op := ops[..|ops| - 1], ops[|ops| - 1];
      AppendsOnly(fs, init);
      FitsSnoc(fs, ops);
    }
  }

  // Full replay adds the same records to a file that is not deleted.
  lemma {:induction false} RecordsAdded(fs: Files, ops: seq<BlockOp>, n: Name)
    requires n in fs && !Deletes(ops, n) && ApplyOps(fs, ops, true, true).Some?
    ensures n in ApplyOps(fs, ops, true, true).value
    ensures ApplyOps(fs, ops, true, true).value[n].records == fs[n].records + AppendsTo(ops, n)
  {
    if ops != [] {
      RecordsAdded(fs, ops[..|ops| - 1], n);
    }
  }

  // The view is full replay of the blocks below the creation threshold, followed by the appends of the
  // blocks between the two thresholds.
  lemma EarlyView(chain: seq<Block>, confirmsCreate: int, confirmsAppend: int)
    requires confirmsAppend <= confirmsCreate && GenesisFirst(chain) && Replayed(Log(chain)).Some?
    ensures ConfirmedLength(chain, confirmsCreate) <= ConfirmedLength(chain, confirmsAppend)
    ensures var kc, ka := ConfirmedLength(chain, confirmsCreate), ConfirmedLength(chain, confirmsAppend);
            Filesystem(chain, confirmsCreate, confirmsAppend) ==
            ApplyFrom(FilesAt(chain, kc), LogBetween(chain, kc, ka), false, true)
  {
    hide ApplyFrom, FilesAt, LogBetween, Log, Replayed, KnownOps;
    var kc, ka := ConfirmedLength(chain, confirmsCreate), ConfirmedLength(chain, confirmsAppend);
    ReplayedIsKnown(Log(chain));
    EarlyPhases(chain, kc, ka, |chain| - confirmsCreate, |chain| - confirmsAppend);
  }

  lemma EarlyPhases(chain: seq<Block>, kc: nat, ka: nat, creates: int, appends: int)
    requires GenesisFirst(chain) && KnownOps(Log(chain)) && kc <= ka <= |chain|
    requires kc == 0 || (kc <= creates && kc <= appends)
    requires ka == 0 || ka <= appends
    requires kc == |chain| || creates <= kc
    requires ka == |chain| || appends <= ka
    ensures FilesUpTo(chain, |chain|, creates, appends)
         == ApplyFrom(FilesAt(chain, kc), LogBetween(chain, kc, ka), false, true)
  {
    FilesUpToIsReplayed(chain, kc, creates, appends);
    assert GenesisOnlyFirst(chain, kc);
    WindowIsBlocks(chain, kc, ka, creates, appends, false, true);
    ApplyBlocksIsLog(FilesAt(chain, kc), chain, kc, ka, false, true);
    TailChangesNothing(chain, ka, |chain|, creates, appends);
  }

  // The view exists exactly when the appends between the thresholds fit the files below both, and then
  // it has these files with these appends added.
  lemma EarlyViewExistsIff(chain: seq<Block>, confirmsCreate: int, confirmsAppend: int)
    requires confirmsAppend <= confirmsCreate && FullFilesystem(chain).Some?
    ensures ConfirmedLength(chain, confirmsCreate) <= ConfirmedLength(chain, confirmsAppend)
    ensures var kc, ka := ConfirmedLength(chain, confirmsCreate), ConfirmedLength(chain, confirmsAppend);
            && FilesAt(chain, kc).Some?
            && var before, ops := FilesAt(chain, kc).value, LogBetween(chain, kc, ka);
               && (Filesystem(chain, confirmsCreate, confirmsAppend).Some? <==> Fits(before, ops))
               && (Fits(before, ops) ==> Added(before, ops, Filesystem(chain, confirmsCreate, confirmsAppend).value))
  {
    hide Fits, Added;
    var kc, ka := ConfirmedLength(chain, confirmsCreate), ConfirmedLength(chain, confirmsAppend);
    FullIsFilesAt(chain);
    FilesAtSplit(chain, kc, |chain|);
    WindowIsKnown(chain, kc, ka);
    AppendsOnly(FilesAt(chain, kc).value, LogBetween(chain, kc, ka));
    if chain != [] {
      EarlyView(chain, confirmsCreate, confirmsAppend);
    }
  }

  lemma WindowIsKnown(chain: seq<Block>, i: nat, j: nat)
    requires i <= j <= |chain| && FilesAt(chain, |chain|).Some?
    ensures KnownOps(LogBetween(chain, i, j))
  {
    ReplayedIsKnown(Log(chain));
    LogSplit(chain, 0, j, |chain|);
    KnownParts(LogBetween(chain, 0, j), LogBetween(chain, j, |chain|));
    LogSplit(chain, 0, i, j);
    KnownParts(LogBetween(chain, 0, i), LogBetween(chain, i, j));
  }

  // ---------- What the view shows stays ----------

  // A file that only appends change goes through the same contents with and without the other
  // operations on other files.
  lemma {:induction false} SameEntry(view: Files, full: Files, ops: seq<BlockOp>, n: Name)
    requires n in view && n in full && view[n] == full[n] && !Deletes(ops, n)
    requires ApplyOps(view, ops, false, true).Some? && ApplyOps(full, ops, true, true).Some?
    ensures n in ApplyOps(view, ops, false, true).value && n in ApplyOps(full, ops, true, true).value
    ensures ApplyOps(view, ops, false, true).value[n] == ApplyOps(full, ops, true, true).value[n]
  {
    if ops != [] {
      SameEntry(view, full, ops[..|ops| - 1], n);
    }
  }

  // The view has the files below the creation threshold, and a file that is not deleted between the
  // thresholds as it is below the append threshold.
  lemma EarlyEntry(chain: seq<Block>, confirmsCreate: int, confirmsAppend: int, n: Name)
    requires confirmsAppend <= confirmsCreate && FullFilesystem(chain).Some?
    requires Filesystem(chain, confirmsCreate, confirmsAppend).Some?
    ensures ConfirmedLength(chain, confirmsCreate) <= ConfirmedLength(chain, confirmsAppend)
    ensures var kc, ka := ConfirmedLength(chain, confirmsCreate), ConfirmedLength(chain, confirmsAppend);
            && FilesAt(chain, kc).Some? && FilesAt(chain, ka).Some?
            && var view := Filesystem(chain, confirmsCreate, confirmsAppend).value;
               && (n in view <==> n in FilesAt(chain, kc).value)
               && (n in view && !Deletes(LogBetween(chain, kc, ka), n) ==>
                     n in FilesAt(chain, ka).value && view[n] == FilesAt(chain, ka).value[n])
  {
    var kc, ka := ConfirmedLength(chain, confirmsCreate), ConfirmedLength(chain, confirmsAppend);
    EarlyViewExistsIff(chain, confirmsCreate, confirmsAppend);
    FullIsFilesAt(chain);
    FilesAtSplit(chain, ka, |chain|);
    FilesAtSplit(chain, kc, ka);
    if chain != [] {
      EarlyView(chain, confirmsCreate, confirmsAppend);
    }
    if n in FilesAt(chain, kc).value && !Deletes(LogBetween(chain, kc, ka), n) {
      SameEntry(FilesAt(chain, kc).value, FilesAt(chain, kc).value, LogBetween(chain, kc, ka), n);
    }
  }

  lemma EarlyViewIsStable(chain: seq<Block>, longer: seq<Block>, confirmsCreate: int, confirmsAppend: int, n: Name)
    requires confirmsAppend <= confirmsCreate && chain <= longer && FullFilesystem(longer).Some?
    requires Filesystem(chain, confirmsCreate, confirmsAppend).Some?
    requires Filesystem(longer, confirmsCreate, confirmsAppend).Some?
    requires !Deletes(LogBetween(longer, ConfirmedLength(chain, confirmsCreate), |longer|), n)
    ensures var view, later := Filesystem(chain, confirmsCreate, confirmsAppend).value,
                               Filesystem(longer, confirmsCreate, confirmsAppend).value;
            n in view ==> n in later && StillShows(view[n], later[n])
  {
    hide Filesystem, FullFilesystem, StillShows;
    var kc, ka := ConfirmedLength(chain, confirmsCreate), ConfirmedLength(chain, confirmsAppend);
    var kc', ka' := ConfirmedLength(longer, confirmsCreate), ConfirmedLength(longer, confirmsAppend);
    assert longer[..|chain|] == chain;
    FullPrefix(longer, |chain|);
    EarlyEntry(chain, confirmsCreate, confirmsAppend, n);
    EarlyEntry(longer, confirmsCreate, confirmsAppend, n);
    LogOfPrefix(chain, longer, 0, kc);
    LogOfPrefix(chain, longer, 0, ka);
    LogOfPrefix(chain, longer, kc, ka);
    NoDeletesWithin(longer, kc, kc, ka, n);
    NoDeletesWithin(longer, kc, kc, kc', n);
    NoDeletesWithin(longer, kc, kc', ka', n);
    NoDeletesWithin(longer, kc, ka, ka', n);
    if n in FilesAt(longer, kc).value {
      SurvivorGrows(longer, kc, kc', n);
      SurvivorGrows(longer, ka, ka', n);
    }
  }

  // What the view shows of a file is final, for every pair of thresholds: every replayable extension
  // that has a view shows the same creator and the same records at the same positions, unless the file
  // is deleted at or after the first block whose creations and deletions did not count yet. When
  // creations need no more confirmations than appends, both views exist.
  lemma ViewIsStable(chain: seq<Block>, longer: seq<Block>, confirmsCreate: int, confirmsAppend: int, n: Name)
    requires chain <= longer && FullFilesystem(longer).Some?
    requires confirmsCreate <= confirmsAppend ||
             (Filesystem(chain, confirmsCreate, confirmsAppend).Some?
              && Filesystem(longer, confirmsCreate, confirmsAppend).Some?)
    requires !Deletes(LogBetween(longer, ConfirmedLength(chain, confirmsCreate), |longer|), n)
    ensures Filesystem(chain, confirmsCreate, confirmsAppend).Some?
    ensures Filesystem(longer, confirmsCreate, confirmsAppend).Some?
    ensures var view, later := Filesystem(chain, confirmsCreate, confirmsAppend).value,
                               Filesystem(longer, confirmsCreate, confirmsAppend).value;
            n in view ==> n in later && StillShows(view[n], later[n])
  {
    if confirmsCreate <= confirmsAppend {
      LateViewIsStable(chain, longer, confirmsCreate, confirmsAppend, n);
    } else {
      EarlyViewIsStable(chain, longer, confirmsCreate, confirmsAppend, n);
    }
  }
}
