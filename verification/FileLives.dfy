/**
 What a log of operations means for one file, said without replaying the others: the file's
 current life runs from its last creation to the end of the log, unless it was deleted since.
 Replay is correct when it yields exactly these lives.
 */
module FileLives {
  import opened Blocks
  import opened Chains
  import opened FileSystemState

  datatype Life = Absent | Alive(creator: Name, appended: seq<BlockOp>)

  function LifeOf(log: seq<BlockOp>, n: Name): Life {
    if log == [] then Absent
    else
      var op, before := log[|log| - 1], LifeOf(log[..|log| - 1], n);
      if op.filename != n then before
      else
        match op.kind
        case CreateFile => Alive(op.creator, [])
        case AppendFile => if before.Alive? then before.(appended := before.appended + [op]) else Absent
        case DeleteFile => Absent
        case UnknownOp => before
  }

  // What an operation has to satisfy after `log`.
  predicate LegalNext(log: seq<BlockOp>, op: BlockOp) {
    var life := LifeOf(log, op.filename);
    match op.kind
    case CreateFile => life.Absent? && |op.filename| <= MAX_FILENAME_LENGTH
    case AppendFile => life.Alive? && op.recordNumber == |life.appended| < MAX_RECORD_COUNT
    case DeleteFile => life.Alive?
    case UnknownOp => false
  }

  ghost predicate LegalLog(log: seq<BlockOp>) {
    forall i :: 0 <= i < |log| ==> LegalNext(log[..i], log[i])
  }

  function Flatten(appended: seq<BlockOp>): seq<Byte> {
    if appended == [] then [] else Flatten(appended[..|appended| - 1]) + appended[|appended| - 1].data
  }

  ghost predicate Describes(life: Life, fs: Files, n: Name) {
    match life
    case Absent => n !in fs
    case Alive(creator, appended) =>
      |appended| <= MAX_RECORD_COUNT && n in fs && fs[n] == FileInfo(creator, |appended|, Flatten(appended))
  }

  // A log replays exactly when each of its operations is legal where it stands, and the files that
  // result are exactly those alive at its end, with their creators and every appended record.
  lemma {:induction false} ReplayIsLives(log: seq<BlockOp>)
    ensures Replayed(log).Some? <==> LegalLog(log)
    ensures Replayed(log).Some? ==> forall n :: Describes(LifeOf(log, n), Replayed(log).value, n)
  {
    if log != [] {
      var init, op := log[..|log| - 1], log[|log| - 1];
      ReplayIsLives(init);
      LegalSnoc(log);
      if Replayed(init).Some? {
        var fs := Replayed(init).value;
        var life := LifeOf(init, op.filename);
        assert Describes(life, fs, op.filename);
        if LegalNext(init, op) {
          var after := Replayed(log).value;
          forall n ensures Describes(LifeOf(log, n), after, n) {
            assert Describes(LifeOf(init, n), fs, n);
            if n == op.filename && op.kind.AppendFile? {
              assert (life.appended + [op])[..|life.appended|] == life.appended;
            }
          }
        }
      }
    }
  }

  lemma LegalSnoc(log: seq<BlockOp>)
    requires log != []
    ensures LegalLog(log) <==> LegalLog(log[..|log| - 1]) && LegalNext(log[..|log| - 1], log[|log| - 1])
  {
    var init := log[..|log| - 1];
    forall i | 0 <= i < |init| ensures init[..i] == log[..i] && init[i] == log[i] {}
  }

  // ---------- Where the records are ----------

  lemma {:induction false} FlattenPositions(records: seq<BlockOp>, k: nat)
    requires k < |records|
    ensures |Flatten(records)| == DATA_BLOCK_SIZE * |records|
    ensures Flatten(records)[DATA_BLOCK_SIZE * k..DATA_BLOCK_SIZE * (k + 1)] == records[k].data
  {
    var init := records[..|records| - 1];
    if init == [] {
      assert Flatten(init) == [];
    } else {
      FlattenPositions(init, if k < |init| then k else 0);
      if k < |init| {
        assert Flatten(records)[DATA_BLOCK_SIZE * k..DATA_BLOCK_SIZE * (k + 1)]
            == Flatten(init)[DATA_BLOCK_SIZE * k..DATA_BLOCK_SIZE * (k + 1)];
      }
    }
  }

  // The appends of the current life carry the record numbers 0, 1, 2, ... in order.
  lemma {:induction false} AppendIsNumbered(log: seq<BlockOp>, i: nat)
    requires LegalLog(log) && i < |log| && log[i].kind.AppendFile?
    requires forall j :: i < j < |log| && log[j].filename == log[i].filename ==> log[j].kind.AppendFile?
    ensures var life := LifeOf(log, log[i].filename);
            life.Alive? && log[i].recordNumber < |life.appended| && life.appended[log[i].recordNumber] == log[i]
  {
    var init := log[..|log| - 1];
    LegalSnoc(log);
    if i < |init| {
      AppendIsNumbered(init, i);
    }
  }

  // And every record of the current life is such an append.
  lemma {:induction false} RecordIsAppended(log: seq<BlockOp>, n: Name, k: nat) returns (i: nat)
    requires LegalLog(log) && LifeOf(log, n).Alive? && k < |LifeOf(log, n).appended|
    ensures i < |log| && log[i].kind.AppendFile? && log[i].filename == n && log[i].recordNumber == k
    ensures log[i] == LifeOf(log, n).appended[k]
    ensures forall j :: i < j < |log| && log[j].filename == n ==> log[j].kind.AppendFile?
  {
    var init, op := log[..|log| - 1], log[|log| - 1];
    LegalSnoc(log);
    if op.filename == n && k == |LifeOf(log, n).appended| - 1 {
      i := |init|;
    } else {
      i := RecordIsAppended(init, n, k);
    }
  }

  // On every chain that replays, an append that is still part of its file's life can be read back at
  // its own record number, at the offsets used by the append listener: they neither wrap in 32 bits
  // nor leave the data.
  lemma RecordsReadBack(chain: seq<Block>, i: nat)
    requires chain != [] && FullFilesystem(chain).Some?
    requires i < |Log(chain)| && Log(chain)[i].kind.AppendFile?
    requires forall j :: i < j < |Log(chain)| && Log(chain)[j].filename == Log(chain)[i].filename ==>
               Log(chain)[j].kind.AppendFile?
    ensures var op, fs := Log(chain)[i], FullFilesystem(chain).value;
            && op.filename in fs
            && op.recordNumber < fs[op.filename].records
            && |fs[op.filename].data| == DATA_BLOCK_SIZE * fs[op.filename].records
            && var start := op.recordNumber * DATA_BLOCK_SIZE;
               && start + DATA_BLOCK_SIZE < 0x1_0000_0000
               && start + DATA_BLOCK_SIZE <= |fs[op.filename].data|
               && fs[op.filename].data[start..start + DATA_BLOCK_SIZE] == op.data
  {
    FullFilesystemIsReplayed(chain);
    ReplayIsLives(Log(chain));
    var op, fs := Log(chain)[i], FullFilesystem(chain).value;
    AppendIsNumbered(Log(chain), i);
    assert Describes(LifeOf(Log(chain), op.filename), fs, op.filename);
    FlattenPositions(LifeOf(Log(chain), op.filename).appended, op.recordNumber);
  }

  // On every chain that replays, each record of a file is the data of an append of its current life,
  // the one that carries the record's number.
  lemma RecordsComeFromAppends(chain: seq<Block>, n: Name, k: nat) returns (i: nat)
    requires chain != [] && FullFilesystem(chain).Some?
    requires n in FullFilesystem(chain).value && k < FullFilesystem(chain).value[n].records
    ensures i < |Log(chain)|
    ensures var op := Log(chain)[i]; op.kind.AppendFile? && op.filename == n && op.recordNumber == k
    ensures forall j :: i < j < |Log(chain)| && Log(chain)[j].filename == n ==> Log(chain)[j].kind.AppendFile?
    ensures var data := FullFilesystem(chain).value[n].data;
            DATA_BLOCK_SIZE * (k + 1) <= |data|
            && data[DATA_BLOCK_SIZE * k..DATA_BLOCK_SIZE * (k + 1)] == Log(chain)[i].data
  {
    FullFilesystemIsReplayed(chain);
    ReplayIsLives(Log(chain));
    assert Describes(LifeOf(Log(chain), n), FullFilesystem(chain).value, n);
    i := RecordIsAppended(Log(chain), n, k);
    FlattenPositions(LifeOf(Log(chain), n).appended, k);
  }

  // Reading record k through 16-bit offsets, as the read handler does.
  function ReadStart(k: uint16): uint16 {
    k * DATA_BLOCK_SIZE % 0x1_0000
  }

  function ReadEnd(k: uint16): uint16 {
    (ReadStart(k) + DATA_BLOCK_SIZE) % 0x1_0000
  }

  // The 16-bit slice is the slice of record k for the first 127 records and for no other; the slice
  // of record 127 is not even a slice.
  lemma ReadOffsetsWrap(k: uint16)
    ensures ReadStart(k) == DATA_BLOCK_SIZE * k && ReadEnd(k) == DATA_BLOCK_SIZE * (k + 1) <==> k <= 126
    ensures ReadStart(127) > ReadEnd(127)
  {
    assert ReadStart(k) == DATA_BLOCK_SIZE * (k % 128);
  }
}
