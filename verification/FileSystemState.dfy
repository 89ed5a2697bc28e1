/** The file system obtained by replaying a chain (miner/state/file_system_state.go). */
module FileSystemState {
  import opened Wrappers
  import opened Blocks
  import opened Chains

  const MAX_FILENAME_LENGTH := 64
  const MAX_RECORD_COUNT := 0xFFFF

  datatype FileInfo = FileInfo(creator: Name, records: uint16, data: seq<Byte>)

  type Files = map<Name, FileInfo>

  function ApplyOp(fs: Files, op: BlockOp, createConfirmed: bool, appendConfirmed: bool): Option<Files> {
    var n := op.filename;
    match op.kind
    case CreateFile =>
      if !createConfirmed then Some(fs)
      else if |n| > MAX_FILENAME_LENGTH || n in fs then None
      else Some(fs[n := FileInfo(op.creator, 0, [])])
    case AppendFile =>
      if !appendConfirmed then Some(fs)
      else if n !in fs then None
      else
        var f := fs[n];
        if f.records >= MAX_RECORD_COUNT || op.recordNumber != f.records then None
        else Some(fs[n := FileInfo(f.creator, f.records + 1, f.data + op.data)])
    case DeleteFile =>
      if !createConfirmed then Some(fs)
      else if n !in fs then None
      else Some(fs - {n})
    case UnknownOp => None
  }

  function ApplyOps(fs: Files, ops: seq<BlockOp>, createConfirmed: bool, appendConfirmed: bool): Option<Files> {
    if ops == [] then Some(fs)
    else
      var g :- ApplyOps(fs, ops[..|ops| - 1], createConfirmed, appendConfirmed);
      ApplyOp(g, ops[|ops| - 1], createConfirmed, appendConfirmed)
  }

  function ApplyBlock(fs: Files, b: Block, idx: nat, createConfirmed: bool, appendConfirmed: bool): Option<Files> {
    match b.kind
    case Genesis => if idx != 0 then None else Some(fs)
    case Regular => ApplyOps(fs, b.records, createConfirmed, appendConfirmed)
    case NoOp => Some(fs)
  }

  // The state after `n` blocks when creations and deletions are confirmed below index `creates`
  // and appends are confirmed below index `appends`.
  function FilesUpTo(chain: seq<Block>, n: nat, creates: int, appends: int): Option<Files>
    requires n <= |chain|
  {
    if n == 0 then Some(map[])
    else
      var fs :- FilesUpTo(chain, n - 1, creates, appends);
      ApplyBlock(fs, chain[n - 1], n - 1, n - 1 < creates, n - 1 < appends)
  }

  function Filesystem(chain: seq<Block>, confirmsCreate: int, confirmsAppend: int): Option<Files> {
    if chain == [] then Some(map[])
    else if !chain[0].kind.Genesis? then None
    else FilesUpTo(chain, |chain|, |chain| - confirmsCreate, |chain| - confirmsAppend)
  }

  // Every operation counts, however recent.
  function FullFilesystem(chain: seq<Block>): Option<Files> {
    Filesystem(chain, 0, 0)
  }

  // ---------- The loops ----------

  lemma {:induction false} ApplyOpsConcat(fs: Files, a: seq<BlockOp>, b: seq<BlockOp>, cc: bool, ca: bool)
    ensures ApplyOps(fs, a + b, cc, ca) ==
            (match ApplyOps(fs, a, cc, ca) case None => None case Some(g) => ApplyOps(g, b, cc, ca))
  {
    if b == [] {
      assert a + b == a;
    } else {
      var init := b[..|b| - 1];
      assert (a + b)[..|a + b| - 1] == a + init;
      ApplyOpsConcat(fs, a, init, cc, ca);
    }
  }

  lemma {:induction false} ApplyOpsFails(fs: Files, ops: seq<BlockOp>, i: nat, cc: bool, ca: bool)
    requires i <= |ops| && ApplyOps(fs, ops[..i], cc, ca).None?
    ensures ApplyOps(fs, ops, cc, ca).None?
  {
    if i < |ops| {
      assert ops[..|ops| - 1][..i] == ops[..i];
      ApplyOpsFails(fs, ops[..|ops| - 1], i, cc, ca);
    } else {
      assert ops[..i] == ops;
    }
  }

  lemma {:induction false} FilesUpToFails(chain: seq<Block>, i: nat, n: nat, creates: int, appends: int)
    requires i <= n <= |chain| && FilesUpTo(chain, i, creates, appends).None?
    ensures FilesUpTo(chain, n, creates, appends).None?
    decreases n
  {
    if i < n {
      FilesUpToFails(chain, i, n - 1, creates, appends);
    }
  }

  method EvaluateFSBlockOps(files: Files, bcs: seq<BlockOp>, createOpsConfirmed: bool, appendOpsConfirmed: bool)
    returns (r: Option<Files>)
    ensures r == ApplyOps(files, bcs, createOpsConfirmed, appendOpsConfirmed)
  {
    var fs := files;
    for i := 0 to |bcs|
      invariant ApplyOps(files, bcs[..i], createOpsConfirmed, appendOpsConfirmed) == Some(fs)
    {
      var tx := bcs[i];
      assert bcs[..i + 1][..i] == bcs[..i];
      if ApplyOps(files, bcs[..i + 1], createOpsConfirmed, appendOpsConfirmed).None? {
        ApplyOpsFails(files, bcs, i + 1, createOpsConfirmed, appendOpsConfirmed);
      }
      match tx.kind {
        case CreateFile =>
          if createOpsConfirmed {
            if |tx.filename| > MAX_FILENAME_LENGTH {
              return None;
            }
            if tx.filename in fs {
              return None;
            }
            fs := fs[tx.filename := FileInfo(tx.creator, 0, [])];
          }
        case AppendFile =>
          if appendOpsConfirmed {
            if tx.filename in fs {
              var f := fs[tx.filename];
              if f.records >= MAX_RECORD_COUNT {
                return None;
              }
              if tx.recordNumber != f.records {
                return None;
              }
              fs := fs[tx.filename := f.(records := f.records + 1, data := f.data + tx.data)];
            } else {
              return None;
            }
          }
        case DeleteFile =>
          if createOpsConfirmed {
            if tx.filename !in fs {
              return None;
            }
            fs := fs - {tx.filename};
          }
        case UnknownOp =>
          return None;
      }
    }
    assert bcs[..|bcs|] == bcs;
    return Some(fs);
  }

  method GenerateFilesystem(nodes: seq<Block>, confirmsPerFileCreate: int, confirmsPerFileAppend: int)
    returns (r: Option<Files>)
    ensures r == Filesystem(nodes, confirmsPerFileCreate, confirmsPerFileAppend)
  {
    var res: Files := map[];
    if |nodes| == 0 {
      return Some(res);
    }
    if !nodes[0].kind.Genesis? {
      return None;
    }
    ghost var creates, appends := |nodes| - confirmsPerFileCreate, |nodes| - confirmsPerFileAppend;
    for idx := 0 to |nodes|
      invariant FilesUpTo(nodes, idx, creates, appends) == Some(res)
    {
      var b := nodes[idx];
      match b.kind {
        case Genesis =>
          if idx != 0 {
            FilesUpToFails(nodes, idx + 1, |nodes|, creates, appends);
            return None;
          }
        case Regular =>
          var createOpsConfirmed := false;
          var appendOpsConfirmed := false;
          var numNodesInFrontOfMe := |nodes| - idx - 1;
          if numNodesInFrontOfMe >= confirmsPerFileCreate {
            createOpsConfirmed := true;
          }
          if numNodesInFrontOfMe >= confirmsPerFileAppend {
            appendOpsConfirmed := true;
          }
          var next := EvaluateFSBlockOps(res, b.records, createOpsConfirmed, appendOpsConfirmed);
          if next.None? {
            FilesUpToFails(nodes, idx + 1, |nodes|, creates, appends);
            return None;
          }
          res := next.value;
        case NoOp =>
      }
    }
    return Some(res);
  }

  // ---------- Replay as one pass over the log ----------

  function Replayed(log: seq<BlockOp>): Option<Files> {
    ApplyOps(map[], log, true, true)
  }

  function ApplyFrom(start: Option<Files>, ops: seq<BlockOp>, cc: bool, ca: bool): Option<Files> {
    var fs :- start;
    ApplyOps(fs, ops, cc, ca)
  }

  lemma ApplyFromConcat(start: Option<Files>, a: seq<BlockOp>, b: seq<BlockOp>, cc: bool, ca: bool)
    ensures ApplyFrom(start, a + b, cc, ca) == ApplyFrom(ApplyFrom(start, a, cc, ca), b, cc, ca)
  {
    if start.Some? {
      ApplyOpsConcat(start.value, a, b, cc, ca);
    }
  }

  lemma GenesisLeavesNoFiles(chain: seq<Block>, creates: int, appends: int)
    requires chain != [] && chain[0].kind.Genesis?
    ensures FilesUpTo(chain, 1, creates, appends) == Some(map[])
  {
    assert FilesUpTo(chain, 0, creates, appends) == Some(map[]);
  }

  // The blocks from index i up to index j, one after the other.
  function ApplyBlocks(start: Option<Files>, chain: seq<Block>, i: nat, j: nat, cc: bool, ca: bool): Option<Files>
    requires i <= j <= |chain|
  {
    if i == j then start
    else ApplyFrom(ApplyBlocks(start, chain, i, j - 1, cc, ca), RecordsOf(chain[j - 1]), cc, ca)
  }

  lemma {:induction false} ApplyBlocksIsLog(start: Option<Files>, chain: seq<Block>, i: nat, j: nat, cc: bool, ca: bool)
    requires i <= j <= |chain|
    ensures ApplyBlocks(start, chain, i, j, cc, ca) == ApplyFrom(start, LogBetween(chain, i, j), cc, ca)
    decreases j
  {
    if i < j {
      ApplyBlocksIsLog(start, chain, i, j - 1, cc, ca);
      ApplyFromConcat(start, LogBetween(chain, i, j - 1), RecordsOf(chain[j - 1]), cc, ca);
    } else {
      ApplyFromNothing(start, cc, ca);
    }
  }

  lemma ApplyFromNothing(start: Option<Files>, cc: bool, ca: bool)
    ensures ApplyFrom(start, [], cc, ca) == start
  {
  }

  lemma FilesUpToStep(chain: seq<Block>, n: nat, creates: int, appends: int)
    requires 0 < n <= |chain| && (n == 1 || !chain[n - 1].kind.Genesis?)
    ensures FilesUpTo(chain, n, creates, appends)
         == ApplyFrom(FilesUpTo(chain, n - 1, creates, appends), RecordsOf(chain[n - 1]),
                      n - 1 < creates, n - 1 < appends)
  {
  }

  lemma {:induction false} FilesUpToIsBlocks(chain: seq<Block>, n: nat, creates: int, appends: int)
    requires n <= |chain| && (n == 0 || (n <= creates && n <= appends)) && GenesisOnlyFirst(chain, n)
    ensures FilesUpTo(chain, n, creates, appends) == ApplyBlocks(Some(map[]), chain, 0, n, true, true)
    decreases n
  {
    if n > 0 {
      FilesUpToIsBlocks(chain, n - 1, creates, appends);
      FilesUpToStep(chain, n, creates, appends);
    }
  }

  lemma {:induction false} SecondGenesisFails(chain: seq<Block>, n: nat, creates: int, appends: int)
    requires n <= |chain| && !GenesisOnlyFirst(chain, n)
    ensures FilesUpTo(chain, n, creates, appends).None?
  {
    var i :| 0 < i < n && chain[i].kind.Genesis?;
    FilesUpToFails(chain, i + 1, n, creates, appends);
  }

  lemma FilesUpToIsReplayed(chain: seq<Block>, n: nat, creates: int, appends: int)
    requires n <= |chain| && (n == 0 || (n <= creates && n <= appends))
    ensures FilesUpTo(chain, n, creates, appends) ==
            if GenesisOnlyFirst(chain, n) then Replayed(LogBetween(chain, 0, n)) else None
  {
    if GenesisOnlyFirst(chain, n) {
      FilesUpToIsBlocks(chain, n, creates, appends);
      ApplyBlocksIsLog(Some(map[]), chain, 0, n, true, true);
    } else {
      SecondGenesisFails(chain, n, creates, appends);
    }
  }

  // Full replay depends on the chain only through the log of its regular blocks.
  lemma FullFilesystemIsReplayed(chain: seq<Block>)
    requires chain != []
    ensures FullFilesystem(chain) == if GenesisFirst(chain) then Replayed(Log(chain)) else None
  {
    FilesUpToIsReplayed(chain, |chain|, |chain|, |chain|);
  }
}
