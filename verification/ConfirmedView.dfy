/**
 The confirmed view of a chain: creations and deletions count once `confirmsCreate` blocks are on
 top of them, appends once `confirmsAppend` blocks are. This module relates that view to full replay.
 */
module ConfirmedView {
  import opened Wrappers
  import opened Blocks
  import opened Chains
  import opened FileSystemState
  import opened FileLives

  // How many blocks of the chain have at least `confirms` blocks on top of them.
  function ConfirmedLength(chain: seq<Block>, confirms: int): nat {
    if confirms <= 0 then |chain|
    else if confirms >= |chain| then 0
    else |chain| - confirms
  }

  ghost predicate Deletes(ops: seq<BlockOp>, n: Name) {
    exists i :: 0 <= i < |ops| && ops[i].kind.DeleteFile? && ops[i].filename == n
  }

  // `view` has the files of `full`, each with its creator and a prefix of its records.
  ghost predicate LagsBehind(view: Files, full: Files) {
    && view.Keys == full.Keys
    && forall n :: n in view ==>
         && view[n].creator == full[n].creator
         && view[n].records <= full[n].records
         && view[n].data <= full[n].data
  }

  // ---------- Three phases of a confirmed replay ----------

  // Blocks that all have the same confirmation flags.
  lemma {:induction false} WindowIsBlocks(chain: seq<Block>, from: nat, n: nat, creates: int, appends: int, cc: bool,
                                          ca: bool)
    requires from <= n <= |chain| && GenesisOnlyFirst(chain, |chain|)
    requires n == from || ((if cc then n <= creates else creates <= from)
                            && (if ca then n <= appends else appends <= from))
    ensures FilesUpTo(chain, n, creates, appends)
         == ApplyBlocks(FilesUpTo(chain, from, creates, appends), chain, from, n, cc, ca)
    decreases n
  {
    if from < n {
      WindowIsBlocks(chain, from, n - 1, creates, appends, cc, ca);
      FilesUpToStep(chain, n, creates, appends);
    }
  }

  ghost predicate KnownOps(ops: seq<BlockOp>) {
    forall i :: 0 <= i < |ops| ==> !ops[i].kind.UnknownOp?
  }

  lemma {:induction false} NothingConfirmed(fs: Files, ops: seq<BlockOp>)
    requires KnownOps(ops)
    ensures ApplyOps(fs, ops, false, false) == Some(fs)
  {
    if ops != [] {
      NothingConfirmed(fs, ops[..|ops| - 1]);
    }
  }

  lemma {:induction false} TailChangesNothing(chain: seq<Block>, from: nat, n: nat, creates: int, appends: int)
    requires from <= n <= |chain| && GenesisOnlyFirst(chain, |chain|) && KnownOps(LogBetween(chain, 0, n))
    requires n == from || (creates <= from && appends <= from)
    ensures FilesUpTo(chain, n, creates, appends) == FilesUpTo(chain, from, creates, appends)
    decreases n
  {
    if from < n {
      KnownParts(LogBetween(chain, 0, n - 1), RecordsOf(chain[n - 1]));
      TailChangesNothing(chain, from, n - 1, creates, appends);
      FilesUpToStep(chain, n, creates, appends);
      if FilesUpTo(chain, n - 1, creates, appends).Some? {
        NothingConfirmed(FilesUpTo(chain, n - 1, creates, appends).value, RecordsOf(chain[n - 1]));
      }
    }
  }

  lemma KnownParts(a: seq<BlockOp>, b: seq<BlockOp>)
    requires KnownOps(a + b)
    ensures KnownOps(a) && KnownOps(b)
  {
    forall i | 0 <= i < |a| ensures !a[i].kind.UnknownOp? {
      assert a[i] == (a + b)[i];
    }
    forall i | 0 <= i < |b| ensures !b[i].kind.UnknownOp? {
      assert b[i] == (a + b)[|a| + i];
    }
  }

  lemma ReplayedIsKnown(log: seq<BlockOp>)
    requires Replayed(log).Some?
    ensures KnownOps(log)
  {
    ReplayIsLives(log);
    forall i | 0 <= i < |log| ensures !log[i].kind.UnknownOp? {
      assert LegalNext(log[..i], log[i]);
    }
  }

  // The state after the first i blocks of a chain that replays.
  ghost function FilesAt(chain: seq<Block>, i: nat): Option<Files>
    requires i <= |chain|
  {
    Replayed(LogBetween(chain, 0, i))
  }

  lemma FilesAtSplit(chain: seq<Block>, i: nat, j: nat)
    requires i <= j <= |chain| && FilesAt(chain, j).Some?
    ensures FilesAt(chain, i).Some?
    ensures FilesAt(chain, j) == ApplyOps(FilesAt(chain, i).value, LogBetween(chain, i, j), true, true)
  {
    LogSplit(chain, 0, i, j);
    ApplyOpsConcat(map[], LogBetween(chain, 0, i), LogBetween(chain, i, j), true, true);
  }

  lemma FullIsFilesAt(chain: seq<Block>)
    requires FullFilesystem(chain).Some?
    ensures chain != [] ==> GenesisFirst(chain)
    ensures FilesAt(chain, |chain|) == FullFilesystem(chain)
  {
    if chain != [] {
      FullFilesystemIsReplayed(chain);
    }
  }

  // Every prefix of a chain that replays replays too.
  lemma FullPrefix(chain: seq<Block>, i: nat)
    requires FullFilesystem(chain).Some? && i <= |chain|
    ensures FilesAt(chain, i).Some? && FullFilesystem(chain[..i]) == FilesAt(chain, i)
  {
    FullIsFilesAt(chain);
    FilesAtSplit(chain, i, |chain|);
    LogOfPrefix(chain[..i], chain, 0, i);
    if i > 0 {
      FullFilesystemIsReplayed(chain[..i]);
    }
  }

  lemma ViewPhases(chain: seq<Block>, kc: nat, ka: nat, creates: int, appends: int)
    requires GenesisFirst(chain) && KnownOps(Log(chain)) && ka <= kc <= |chain|
    requires kc == 0 || kc <= creates
    requires ka == 0 || (ka <= creates && ka <= appends)
    requires kc == |chain| || creates <= kc
    requires ka == |chain| || appends <= ka
    ensures FilesUpTo(chain, |chain|, creates, appends) ==
            ApplyFrom(FilesAt(chain, ka), LogBetween(chain, ka, kc), true, false)
  {
    FilesUpToIsReplayed(chain, ka, creates, appends);
    assert GenesisOnlyFirst(chain, ka);
    WindowIsBlocks(chain, ka, kc, creates, appends, true, false);
    ApplyBlocksIsLog(FilesAt(chain, ka), chain, ka, kc, true, false);
    TailChangesNothing(chain, kc, |chain|, creates, appends);
  }

  lemma ViewOfNonempty(chain: seq<Block>, confirmsCreate: int, confirmsAppend: int)
    requires confirmsCreate <= confirmsAppend && GenesisFirst(chain) && Replayed(Log(chain)).Some?
    ensures ConfirmedLength(chain, confirmsAppend) <= ConfirmedLength(chain, confirmsCreate)
    ensures var kc, ka := ConfirmedLength(chain, confirmsCreate), ConfirmedLength(chain, confirmsAppend);
            Filesystem(chain, confirmsCreate, confirmsAppend) ==
            ApplyFrom(FilesAt(chain, ka), LogBetween(chain, ka, kc), true, false)
  {
    hide FilesUpTo, ApplyFrom, FilesAt, LogBetween, Log, Replayed, KnownOps;
    var kc, ka := ConfirmedLength(chain, confirmsCreate), ConfirmedLength(chain, confirmsAppend);
    ReplayedIsKnown(Log(chain));
    ViewPhases(chain, kc, ka, |chain| - confirmsCreate, |chain| - confirmsAppend);
  }

  // The confirmed view is full replay of the blocks below the append threshold, followed by the
  // creations and deletions of the blocks between the two thresholds.
  lemma ViewIsWindow(chain: seq<Block>, confirmsCreate: int, confirmsAppend: int)
    requires confirmsCreate <= confirmsAppend && FullFilesystem(chain).Some?
    ensures ConfirmedLength(chain, confirmsAppend) <= ConfirmedLength(chain, confirmsCreate)
    ensures var kc, ka := ConfirmedLength(chain, confirmsCreate), ConfirmedLength(chain, confirmsAppend);
            && FilesAt(chain, ka).Some? && FilesAt(chain, kc).Some?
            && Filesystem(chain, confirmsCreate, confirmsAppend)
            == ApplyOps(FilesAt(chain, ka).value, LogBetween(chain, ka, kc), true, false)
  {
    var kc, ka := ConfirmedLength(chain, confirmsCreate), ConfirmedLength(chain, confirmsAppend);
    FullIsFilesAt(chain);
    FilesAtSplit(chain, kc, |chain|);
    FilesAtSplit(chain, ka, kc);
    if chain != [] {
      ViewOfNonempty(chain, confirmsCreate, confirmsAppend);
    }
  }

  // ---------- What skipping appends does to one file ----------

  lemma OpKeepsLag(view: Files, full: Files, op: BlockOp)
    requires LagsBehind(view, full) && ApplyOp(full, op, true, true).Some?
    ensures ApplyOp(view, op, true, false).Some?
    ensures LagsBehind(ApplyOp(view, op, true, false).value, ApplyOp(full, op, true, true).value)
  {
  }

  lemma {:induction false} LagIsKept(view: Files, full: Files, ops: seq<BlockOp>)
    requires LagsBehind(view, full) && ApplyOps(full, ops, true, true).Some?
    ensures ApplyOps(view, ops, true, false).Some?
    ensures LagsBehind(ApplyOps(view, ops, true, false).value, ApplyOps(full, ops, true, true).value)
  {
    hide ApplyOp, LagsBehind;
    if ops != [] {
      var init := ops[..|ops| - 1];
      LagIsKept(view, full, init);
      OpKeepsLag(ApplyOps(view, init, true, false).value, ApplyOps(full, init, true, true).value, ops[|ops| - 1]);
    }
  }

  lemma {:induction false} UntouchedWithoutDelete(fs: Files, ops: seq<BlockOp>, n: Name)
    requires n in fs && !Deletes(ops, n) && ApplyOps(fs, ops, true, false).Some?
    ensures n in ApplyOps(fs, ops, true, false).value && ApplyOps(fs, ops, true, false).value[n] == fs[n]
  {
    if ops != [] {
      UntouchedWithoutDelete(fs, ops[..|ops| - 1], n);
    }
  }

  lemma {:induction false} EmptyWhenNew(fs: Files, ops: seq<BlockOp>, n: Name)
    requires ApplyOps(fs, ops, true, false).Some? && n in ApplyOps(fs, ops, true, false).value
    requires n !in fs || Deletes(ops, n)
    ensures var f := ApplyOps(fs, ops, true, false).value[n]; f.records == 0 && f.data == []
  {
    if ops != [] {
      var init, op := ops[..|ops| - 1], ops[|ops| - 1];
      var g := ApplyOps(fs, init, true, false).value;
      if op.filename != n || !op.kind.CreateFile? {
        if n in fs {
          var i :| 0 <= i < |ops| && ops[i].kind.DeleteFile? && ops[i].filename == n;
          assert i < |init| && init[i] == ops[i];
        }
        EmptyWhenNew(fs, init, n);
      }
    }
  }

  ghost predicate StillShows(before: FileInfo, after: FileInfo) {
    after.creator == before.creator && before.records <= after.records && before.data <= after.data
  }

  lemma {:induction false} GrowsWithoutDelete(fs: Files, ops: seq<BlockOp>, n: Name, cc: bool, ca: bool)
    requires n in fs && !Deletes(ops, n) && ApplyOps(fs, ops, cc, ca).Some?
    ensures var g := ApplyOps(fs, ops, cc, ca).value; n in g && StillShows(fs[n], g[n])
  {
    if ops != [] {
      GrowsWithoutDelete(fs, ops[..|ops| - 1], n, cc, ca);
    }
  }

  // ---------- Main results ----------

  // When creations need no more confirmations than appends, the view of a chain that replays never
  // fails. It has exactly the files of the first |chain| - confirmsCreate blocks, and each file holds
  // a prefix of its records there.
  lemma ViewIsTotalAndLags(chain: seq<Block>, confirmsCreate: int, confirmsAppend: int)
    requires confirmsCreate <= confirmsAppend && FullFilesystem(chain).Some?
    ensures Filesystem(chain, confirmsCreate, confirmsAppend).Some?
    ensures var confirmed := FullFilesystem(chain[..ConfirmedLength(chain, confirmsCreate)]);
            confirmed.Some? && LagsBehind(Filesystem(chain, confirmsCreate, confirmsAppend).value, confirmed.value)
  {
    var kc, ka := ConfirmedLength(chain, confirmsCreate), ConfirmedLength(chain, confirmsAppend);
    ViewIsWindow(chain, confirmsCreate, confirmsAppend);
    FullPrefix(chain, kc);
    FilesAtSplit(chain, ka, kc);
    LagIsKept(FilesAt(chain, ka).value, FilesAt(chain, ka).value, LogBetween(chain, ka, kc));
  }

  // With one threshold for both, the view is the full replay of all but the last `confirms` blocks.
  lemma EqualThresholdsDropSuffix(chain: seq<Block>, confirms: nat)
    requires confirms <= |chain| && FullFilesystem(chain).Some?
    ensures Filesystem(chain, confirms, confirms) == FullFilesystem(chain[..|chain| - confirms])
  {
    ViewIsWindow(chain, confirms, confirms);
    FullPrefix(chain, |chain| - confirms);
  }

  // What the view shows of a file is final, when creations need no more confirmations than appends (see
  // ViewIsStable in EarlyAppends for the other case).
  lemma LateViewIsStable(chain: seq<Block>, longer: seq<Block>, confirmsCreate: int, confirmsAppend: int, n: Name)
    requires confirmsCreate <= confirmsAppend && chain <= longer && FullFilesystem(longer).Some?
    requires !Deletes(LogBetween(longer, ConfirmedLength(chain, confirmsCreate), |longer|), n)
    ensures Filesystem(chain, confirmsCreate, confirmsAppend).Some?
    ensures Filesystem(longer, confirmsCreate, confirmsAppend).Some?
    ensures var view, later := Filesystem(chain, confirmsCreate, confirmsAppend).value,
                               Filesystem(longer, confirmsCreate, confirmsAppend).value;
            n in view ==> n in later && StillShows(view[n], later[n])
  {
    assert longer[..|chain|] == chain;
    FullPrefix(longer, |chain|);
    ViewIsTotalAndLags(chain, confirmsCreate, confirmsAppend);
    ViewIsTotalAndLags(longer, confirmsCreate, confirmsAppend);
    if n in Filesystem(chain, confirmsCreate, confirmsAppend).value {
      VisibleStaysVisible(chain, longer, confirmsCreate, confirmsAppend, n);
      if Survives(chain, ConfirmedLength(chain, confirmsAppend), ConfirmedLength(chain, confirmsCreate), n) {
        SurvivorKeepsRecords(chain, longer, confirmsCreate, confirmsAppend, n);
      } else {
        NewcomerIsEmpty(chain, confirmsCreate, confirmsAppend, n);
      }
    }
  }

  // The file exists after i blocks and the blocks up to j do not delete it.
  ghost predicate Survives(chain: seq<Block>, i: nat, j: nat, n: Name)
    requires i <= j <= |chain|
  {
    FilesAt(chain, i).Some? && n in FilesAt(chain, i).value && !Deletes(LogBetween(chain, i, j), n)
  }

  lemma SurvivorGrows(chain: seq<Block>, i: nat, j: nat, n: Name)
    requires i <= j <= |chain| && Survives(chain, i, j, n) && FilesAt(chain, j).Some?
    ensures n in FilesAt(chain, j).value && StillShows(FilesAt(chain, i).value[n], FilesAt(chain, j).value[n])
  {
    FilesAtSplit(chain, i, j);
    GrowsWithoutDelete(FilesAt(chain, i).value, LogBetween(chain, i, j), n, true, true);
  }

  lemma SurvivorIsShown(chain: seq<Block>, confirmsCreate: int, confirmsAppend: int, n: Name)
    requires confirmsCreate <= confirmsAppend && FullFilesystem(chain).Some?
    requires ConfirmedLength(chain, confirmsAppend) <= ConfirmedLength(chain, confirmsCreate)
    requires Filesystem(chain, confirmsCreate, confirmsAppend).Some?
    requires Survives(chain, ConfirmedLength(chain, confirmsAppend), ConfirmedLength(chain, confirmsCreate), n)
    ensures var view := Filesystem(chain, confirmsCreate, confirmsAppend).value;
            n in view && view[n] == FilesAt(chain, ConfirmedLength(chain, confirmsAppend)).value[n]
  {
    var kc, ka := ConfirmedLength(chain, confirmsCreate), ConfirmedLength(chain, confirmsAppend);
    ViewIsWindow(chain, confirmsCreate, confirmsAppend);
    UntouchedWithoutDelete(FilesAt(chain, ka).value, LogBetween(chain, ka, kc), n);
  }

  lemma NewcomerIsEmpty(chain: seq<Block>, confirmsCreate: int, confirmsAppend: int, n: Name)
    requires confirmsCreate <= confirmsAppend && FullFilesystem(chain).Some?
    requires ConfirmedLength(chain, confirmsAppend) <= ConfirmedLength(chain, confirmsCreate)
    requires !Survives(chain, ConfirmedLength(chain, confirmsAppend), ConfirmedLength(chain, confirmsCreate), n)
    requires Filesystem(chain, confirmsCreate, confirmsAppend).Some?
    requires n in Filesystem(chain, confirmsCreate, confirmsAppend).value
    ensures var f := Filesystem(chain, confirmsCreate, confirmsAppend).value[n]; f.records == 0 && f.data == []
  {
    var kc, ka := ConfirmedLength(chain, confirmsCreate), ConfirmedLength(chain, confirmsAppend);
    ViewIsWindow(chain, confirmsCreate, confirmsAppend);
    EmptyWhenNew(FilesAt(chain, ka).value, LogBetween(chain, ka, kc), n);
  }

  lemma VisibleStaysVisible(chain: seq<Block>, longer: seq<Block>, confirmsCreate: int, confirmsAppend: int, n: Name)
    requires confirmsCreate <= confirmsAppend && chain <= longer
    requires FullFilesystem(chain).Some? && FullFilesystem(longer).Some?
    requires !Deletes(LogBetween(longer, ConfirmedLength(chain, confirmsCreate), |longer|), n)
    requires Filesystem(chain, confirmsCreate, confirmsAppend).Some?
    requires Filesystem(longer, confirmsCreate, confirmsAppend).Some?
    requires n in Filesystem(chain, confirmsCreate, confirmsAppend).value
    ensures n in Filesystem(longer, confirmsCreate, confirmsAppend).value
    ensures Filesystem(longer, confirmsCreate, confirmsAppend).value[n].creator ==
            Filesystem(chain, confirmsCreate, confirmsAppend).value[n].creator
  {
    var kc, kc' := ConfirmedLength(chain, confirmsCreate), ConfirmedLength(longer, confirmsCreate);
    ViewIsTotalAndLags(chain, confirmsCreate, confirmsAppend);
    ViewIsTotalAndLags(longer, confirmsCreate, confirmsAppend);
    FullPrefix(chain, kc);
    FullPrefix(longer, kc);
    FullPrefix(longer, kc');
    LogOfPrefix(chain, longer, 0, kc);
    NoDeletesWithin(longer, kc, kc, kc', n);
    SurvivorGrows(longer, kc, kc', n);
  }

  lemma SurvivorKeepsRecords(chain: seq<Block>, longer: seq<Block>, confirmsCreate: int, confirmsAppend: int, n: Name)
    requires confirmsCreate <= confirmsAppend && chain <= longer
    requires FullFilesystem(chain).Some? && FullFilesystem(longer).Some?
    requires ConfirmedLength(chain, confirmsAppend) <= ConfirmedLength(chain, confirmsCreate)
    requires !Deletes(LogBetween(longer, ConfirmedLength(chain, confirmsCreate), |longer|), n)
    requires Filesystem(chain, confirmsCreate, confirmsAppend).Some?
    requires Filesystem(longer, confirmsCreate, confirmsAppend).Some?
    requires Survives(chain, ConfirmedLength(chain, confirmsAppend), ConfirmedLength(chain, confirmsCreate), n)
    ensures n in Filesystem(chain, confirmsCreate, confirmsAppend).value
    ensures n in Filesystem(longer, confirmsCreate, confirmsAppend).value
    ensures StillShows(Filesystem(chain, confirmsCreate, confirmsAppend).value[n],
                       Filesystem(longer, confirmsCreate, confirmsAppend).value[n])
  {
    var kc, ka := ConfirmedLength(chain, confirmsCreate), ConfirmedLength(chain, confirmsAppend);
    var kc', ka' := ConfirmedLength(longer, confirmsCreate), ConfirmedLength(longer, confirmsAppend);
    SurvivorIsShown(chain, confirmsCreate, confirmsAppend, n);
    LogOfPrefix(chain, longer, 0, ka);
    LogOfPrefix(chain, longer, ka, kc);
    NoDeletesAcross(longer, ka, kc, |longer|, n);
    NoDeletesWithin(longer, ka, ka, ka', n);
    NoDeletesWithin(longer, ka, ka', kc', n);
    FullPrefix(longer, ka');
    SurvivorGrows(longer, ka, ka', n);
    SurvivorIsShown(longer, confirmsCreate, confirmsAppend, n);
  }

  lemma DeletesInParts(a: seq<BlockOp>, b: seq<BlockOp>, n: Name)
    ensures Deletes(a + b, n) <==> Deletes(a, n) || Deletes(b, n)
  {
    if Deletes(a, n) {
      var i :| 0 <= i < |a| && a[i].kind.DeleteFile? && a[i].filename == n;
      assert (a + b)[i] == a[i];
    }
    if Deletes(b, n) {
      var i :| 0 <= i < |b| && b[i].kind.DeleteFile? && b[i].filename == n;
      assert (a + b)[|a| + i] == b[i];
    }
  }

  lemma NoDeletesAcross(chain: seq<Block>, i: nat, j: nat, k: nat, n: Name)
    requires i <= j <= k <= |chain|
    ensures Deletes(LogBetween(chain, i, k), n)
       <==> Deletes(LogBetween(chain, i, j), n) || Deletes(LogBetween(chain, j, k), n)
  {
    LogSplit(chain, i, j, k);
    DeletesInParts(LogBetween(chain, i, j), LogBetween(chain, j, k), n);
  }

  lemma NoDeletesWithin(chain: seq<Block>, from: nat, i: nat, j: nat, n: Name)
    requires from <= i <= j <= |chain| && !Deletes(LogBetween(chain, from, |chain|), n)
    ensures !Deletes(LogBetween(chain, i, j), n)
  {
    NoDeletesAcross(chain, from, i, |chain|, n);
    NoDeletesAcross(chain, i, j, |chain|, n);
  }

  lemma {:induction false} ShownFrom(chain: seq<Block>, i: nat, j: nat, creates: int, appends: int, n: Name)
    requires i <= j <= |chain| && FilesUpTo(chain, i, creates, appends).Some?
    requires FilesUpTo(chain, j, creates, appends).Some?
    requires n in FilesUpTo(chain, i, creates, appends).value && !Deletes(LogBetween(chain, i, j), n)
    ensures n in FilesUpTo(chain, j, creates, appends).value
    ensures StillShows(FilesUpTo(chain, i, creates, appends).value[n], FilesUpTo(chain, j, creates, appends).value[n])
    decreases j
  {
    if i < j {
      DeletesInParts(LogBetween(chain, i, j - 1), RecordsOf(chain[j - 1]), n);
      ShownFrom(chain, i, j - 1, creates, appends, n);
      if chain[j - 1].kind.Regular? {
        GrowsWithoutDelete(FilesUpTo(chain, j - 1, creates, appends).value, chain[j - 1].records, n,
                           j - 1 < creates, j - 1 < appends);
      }
    }
  }

  // A block counts in full once both thresholds are reached: the view starts with its replay.
  lemma ViewStartsInFull(chain: seq<Block>, i: nat, confirmsCreate: int, confirmsAppend: int)
    requires 0 < i <= |chain| && |chain| - i >= confirmsCreate && |chain| - i >= confirmsAppend
    requires Filesystem(chain, confirmsCreate, confirmsAppend).Some?
    ensures FullFilesystem(chain[..i]).Some?
    ensures FilesUpTo(chain, i, |chain| - confirmsCreate, |chain| - confirmsAppend) == FullFilesystem(chain[..i])
  {
    var creates, appends := |chain| - confirmsCreate, |chain| - confirmsAppend;
    if FilesUpTo(chain, i, creates, appends).None? {
      FilesUpToFails(chain, i, |chain|, creates, appends);
    }
    FilesUpToIsReplayed(chain, i, creates, appends);
    LogOfPrefix(chain[..i], chain, 0, i);
    FullFilesystemIsReplayed(chain[..i]);
  }

  // The miner waits until its block is below the longest head by more than the larger threshold. The
  // block's operations then pass both confirmation tests, and whatever the thresholds are, every file
  // alive after the block and not deleted later is in the confirmed view, if there is one (see
  // ViewExistsIff), with all the records it had.
  lemma DeepBlockIsVisible(chain: seq<Block>, i: nat, confirmsCreate: int, confirmsAppend: int, n: Name)
    requires i < |chain| && |chain| - 1 - i >= confirmsCreate && |chain| - 1 - i >= confirmsAppend
    requires Filesystem(chain, confirmsCreate, confirmsAppend).Some?
    ensures i < ConfirmedLength(chain, confirmsCreate) && i < ConfirmedLength(chain, confirmsAppend)
    ensures FullFilesystem(chain[..i + 1]).Some?
    ensures var atBlock, view := FullFilesystem(chain[..i + 1]).value,
                                Filesystem(chain, confirmsCreate, confirmsAppend).value;
            n in atBlock && !Deletes(LogBetween(chain, i + 1, |chain|), n) ==>
              n in view && StillShows(atBlock[n], view[n])
  {
    ViewStartsInFull(chain, i + 1, confirmsCreate, confirmsAppend);
    if n in FullFilesystem(chain[..i + 1]).value && !Deletes(LogBetween(chain, i + 1, |chain|), n) {
      ShownFrom(chain, i + 1, |chain|, |chain| - confirmsCreate, |chain| - confirmsAppend, n);
    }
  }

  // ---------- The order of the thresholds matters ----------

  // A chain whose second block creates a file and appends to it, with k empty blocks on top.
  predicate IsCreateAndAppend(chain: seq<Block>, k: nat) {
    && |chain| == k + 2 && chain[0].kind.Genesis? && chain[1].kind.Regular? && |chain[1].records| == 2
    && (forall x :: 2 <= x < |chain| ==> chain[x].kind.NoOp?)
    && var create, append := chain[1].records[0], chain[1].records[1];
       && create.kind.CreateFile? && append.kind.AppendFile?
       && create.filename == append.filename && |create.filename| <= MAX_FILENAME_LENGTH && append.recordNumber == 0
  }

  function CreateAndAppendBelow(k: nat): (chain: seq<Block>)
    ensures IsCreateAndAppend(chain, k)
  {
    var zero := seq(DIGEST_SIZE, _ => 0);
    var data := seq(DATA_BLOCK_SIZE, _ => 0);
    var create := BlockOp(CreateFile, [], [], 0, data);
    var append := BlockOp(AppendFile, [], [], 0, data);
    [Block(Genesis, zero, [], [], 0), Block(Regular, zero, [create, append], [], 0)]
      + seq(k, _ => Block(NoOp, zero, [], [], 0))
  }

  lemma {:induction false} EmptyTailLog(chain: seq<Block>, i: nat, j: nat)
    requires i <= j <= |chain| && forall x :: i <= x < j ==> chain[x].kind.NoOp?
    ensures LogBetween(chain, i, j) == []
    decreases j
  {
    if i < j {
      EmptyTailLog(chain, i, j - 1);
    }
  }

  lemma CreateAndAppendLogOf(chain: seq<Block>)
    requires |chain| >= 2 && chain[0].kind.Genesis? && chain[1].kind.Regular?
    requires forall x :: 2 <= x < |chain| ==> chain[x].kind.NoOp?
    ensures Log(chain) == chain[1].records
  {
    EmptyTailLog(chain, 2, |chain|);
    LogSplit(chain, 0, 2, |chain|);
    assert LogBetween(chain, 0, 1) == [];
    assert LogBetween(chain, 0, 2) == chain[1].records;
  }

  lemma CreateAndAppendReplays(chain: seq<Block>, k: nat)
    requires IsCreateAndAppend(chain, k)
    ensures FullFilesystem(chain).Some?
  {
    CreateAndAppendLogOf(chain);
    CreateAndAppendLog(chain[1].records);
    assert GenesisOnlyFirst(chain, |chain|);
    FullFilesystemIsReplayed(chain);
  }

  lemma CreateAndAppendLog(ops: seq<BlockOp>)
    requires |ops| == 2 && ops[0].kind.CreateFile? && ops[1].kind.AppendFile?
    requires ops[0].filename == ops[1].filename && |ops[0].filename| <= MAX_FILENAME_LENGTH && ops[1].recordNumber == 0
    ensures Replayed(ops).Some?
  {
    var fs: Files := map[ops[0].filename := FileInfo(ops[0].creator, 0, [])];
    assert ops[..1] == [ops[0]] && [ops[0]][..0] == [];
    assert Replayed([ops[0]][..0]) == Some(map[]);
    assert Replayed([ops[0]]) == Some(fs);
    assert Replayed(ops) == ApplyOp(fs, ops[1], true, true);
  }

  // The append counts and the creation does not: the view is an error, and the chain replays.
  lemma EarlyAppendFails(chain: seq<Block>, confirmsCreate: int, confirmsAppend: int, k: nat)
    requires IsCreateAndAppend(chain, k) && confirmsAppend <= k < confirmsCreate
    ensures FullFilesystem(chain).Some? && Filesystem(chain, confirmsCreate, confirmsAppend).None?
  {
    var creates, appends := |chain| - confirmsCreate, |chain| - confirmsAppend;
    var ops := chain[1].records;
    CreateAndAppendReplays(chain, k);
    GenesisLeavesNoFiles(chain, creates, appends);
    assert ops[..1] == [ops[0]];
    assert ApplyOps(map[], [ops[0]], false, true) == Some(map[]);
    assert ApplyOps(map[], ops, false, true).None?;
    FilesUpToFails(chain, 2, |chain|, creates, appends);
  }

  ghost predicate ViewAlwaysExists(confirmsCreate: int, confirmsAppend: int) {
    forall chain: seq<Block> :: FullFilesystem(chain).Some? ==> Filesystem(chain, confirmsCreate, confirmsAppend).Some?
  }

  // The view exists for every chain that replays exactly when creations need no more confirmations
  // than appends (a negative threshold counts as zero).
  lemma ViewExistsIff(confirmsCreate: int, confirmsAppend: int)
    ensures ViewAlwaysExists(confirmsCreate, confirmsAppend)
       <==> confirmsCreate <= 0 || confirmsCreate <= confirmsAppend
  {
    if confirmsCreate <= confirmsAppend {
      forall chain: seq<Block> | FullFilesystem(chain).Some?
        ensures Filesystem(chain, confirmsCreate, confirmsAppend).Some?
      {
        ViewIsTotalAndLags(chain, confirmsCreate, confirmsAppend);
      }
    } else if confirmsCreate <= 0 {
      forall chain: seq<Block> | FullFilesystem(chain).Some?
        ensures Filesystem(chain, confirmsCreate, confirmsAppend).Some?
      {
        if chain != [] {
          FullFilesystemIsReplayed(chain);
          FilesUpToIsReplayed(chain, |chain|, |chain| - confirmsCreate, |chain| - confirmsAppend);
          assert chain[..|chain|] == chain;
        }
      }
    } else {
      var k := if confirmsAppend < 0 then 0 else confirmsAppend;
      EarlyAppendFails(CreateAndAppendBelow(k), confirmsCreate, confirmsAppend, k);
      assert !ViewAlwaysExists(confirmsCreate, confirmsAppend);
    }
  }
}
