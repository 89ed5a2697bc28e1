/** Where the fields of a block stand in the bytes that its id is the hash of (crypto/block.go:55-71). */
module ByteFormat {
  import opened Blocks

  // The bytes of a list of operations: 512 of data and 4 for the number after each name.
  function OpsSize(ops: seq<BlockOp>): nat {
    if ops == [] then 0 else OpsSize(ops[..|ops| - 1]) + |ops[|ops| - 1].filename| + 516
  }

  // Record k starts after the id of the preceding block and the records before it.
  function Offset(ops: seq<BlockOp>, k: nat): nat
    requires k <= |ops|
  {
    16 + OpsSize(ops[..k])
  }

  // The four fields of a record, one after the other.
  ghost predicate HoldsRecord(s: seq<Byte>, at: nat, op: BlockOp) {
    var data := at + |op.filename|;
    && data + 516 <= |s|
    && s[at..data] == op.filename
    && s[data..data + 512] == op.data
    && FromLittleEndian(s[data + 512..data + 514]) == op.recordNumber
    && s[data + 514] == 0 && s[data + 515] == 0
  }

  lemma NumberRoundTrip(n: uint16)
    ensures |LittleEndian16(n)| == 2 && FromLittleEndian(LittleEndian16(n)) == n
  {
    var t := LittleEndian16(n);
    assert t[1..][1..] == [];
    assert FromLittleEndian(t[1..]) == n / 0x100;
  }

  lemma MiddleOf(a: seq<Byte>, b: seq<Byte>, c: seq<Byte>)
    ensures (a + b + c)[|a|..|a| + |b|] == b
  {
  }

  lemma Joined(a: seq<Byte>, b: seq<Byte>, c: seq<Byte>, d: seq<Byte>)
    ensures a + b + (c + d) == a + b + c + d
  {
  }

  lemma LastRecord(before: seq<Byte>, op: BlockOp)
    ensures HoldsRecord(before + op.filename + op.data + LittleEndian16(op.recordNumber) + [0, 0], |before|, op)
  {
    hide LittleEndian16, FromLittleEndian;
    var name, data, number, zeros := op.filename, op.data, LittleEndian16(op.recordNumber), [0, 0];
    NumberRoundTrip(op.recordNumber);
    MiddleOf(before, name, data + number + zeros);
    Joined(before, name, data + number, zeros);
    Joined(before, name, data, number);
    MiddleOf(before + name, data, number + zeros);
    Joined(before + name, data, number, zeros);
    MiddleOf(before + name + data, number, zeros);
  }

  // What surrounds the bytes of a record does not matter.
  lemma HoldsRecordWithin(before: seq<Byte>, s: seq<Byte>, after: seq<Byte>, at: nat, op: BlockOp)
    requires HoldsRecord(s, at, op)
    ensures HoldsRecord(before + s + after, |before| + at, op)
  {
    var t, data := before + s + after, at + |op.filename|;
    assert t[|before| + at..|before| + data] == s[at..data];
    assert t[|before| + data..|before| + data + 512] == s[data..data + 512];
    assert t[|before| + data + 512..|before| + data + 514] == s[data + 512..data + 514];
  }

  lemma StaysInLonger(s: seq<Byte>, t: seq<Byte>, at: nat, op: BlockOp)
    requires s <= t && HoldsRecord(s, at, op)
    ensures HoldsRecord(t, at, op)
  {
    HoldsRecordWithin([], s, t[|s|..], at, op);
    assert [] + s + t[|s|..] == t;
  }

  lemma {:induction false} RecordInOps(ops: seq<BlockOp>, k: nat)
    requires k < |ops|
    ensures |SerializeOps(ops)| == OpsSize(ops) && HoldsRecord(SerializeOps(ops), OpsSize(ops[..k]), ops[k])
  {
    hide HoldsRecord, LittleEndian16;
    var init, op := ops[..|ops| - 1], ops[|ops| - 1];
    OpsLength(init);
    LastRecord(SerializeOps(init), op);
    OpsLength(ops);
    if k < |init| {
      RecordInOps(init, k);
      assert init[..k] == ops[..k];
      StaysInLonger(SerializeOps(init), SerializeOps(ops), OpsSize(ops[..k]), ops[k]);
    } else {
      assert ops[..k] == init;
    }
  }

  lemma {:induction false} OpsLength(ops: seq<BlockOp>)
    ensures |SerializeOps(ops)| == OpsSize(ops)
  {
    if ops != [] {
      OpsLength(ops[..|ops| - 1]);
    }
  }

  // The first 16 bytes are the id of the preceding block, then come the records, the miner and the
  // nonce in the last four bytes.
  lemma FieldPositions(b: Block)
    ensures var s, n := Serialize(b), Offset(b.records, |b.records|);
            && |s| == n + |b.minerId| + 4
            && s[..16] == b.prev
            && (forall k :: 0 <= k < |b.records| ==> HoldsRecord(s, Offset(b.records, k), b.records[k]))
            && s[n..|s| - 4] == b.minerId
            && FromLittleEndian(s[|s| - 4..]) == b.nonce
  {
    var s, n := Serialize(b), Offset(b.records, |b.records|);
    OpsLength(b.records);
    NonceRoundTrip(b, b.nonce);
    assert b.records[..|b.records|] == b.records;
    assert s[..16] == b.prev;
    assert s[n..|s| - 4] == b.minerId;
    forall k | 0 <= k < |b.records| ensures HoldsRecord(s, Offset(b.records, k), b.records[k]) {
      RecordInBlock(b, k);
    }
  }

  lemma RecordInBlock(b: Block, k: nat)
    requires k < |b.records|
    ensures HoldsRecord(Serialize(b), Offset(b.records, k), b.records[k])
  {
    hide HoldsRecord, OpsSize, SerializeOps, LittleEndian32;
    var rest := b.minerId + LittleEndian32(b.nonce);
    RecordInOps(b.records, k);
    HoldsRecordWithin(b.prev, SerializeOps(b.records), rest, OpsSize(b.records[..k]), b.records[k]);
    Joined(b.prev, SerializeOps(b.records), b.minerId, LittleEndian32(b.nonce));
  }

  // ---------- What the bytes determine ----------

  // As many records, with names of the same lengths.
  ghost predicate SameLayout(xs: seq<BlockOp>, ys: seq<BlockOp>) {
    |xs| == |ys| && forall i :: 0 <= i < |xs| ==> |xs[i].filename| == |ys[i].filename|
  }

  lemma {:induction false} SameOffsets(xs: seq<BlockOp>, ys: seq<BlockOp>, k: nat)
    requires SameLayout(xs, ys) && k <= |xs|
    ensures OpsSize(xs[..k]) == OpsSize(ys[..k])
  {
    if k > 0 {
      SameOffsets(xs, ys, k - 1);
      assert xs[..k][..k - 1] == xs[..k - 1] && ys[..k][..k - 1] == ys[..k - 1];
    }
  }

  lemma SameRecord(s: seq<Byte>, at: nat, x: BlockOp, y: BlockOp)
    requires |x.filename| == |y.filename| && HoldsRecord(s, at, x) && HoldsRecord(s, at, y)
    ensures SameOnTheWire(x, y)
  {
  }

  lemma SameRecordInBoth(x: Block, y: Block, k: nat)
    requires Serialize(x) == Serialize(y) && SameLayout(x.records, y.records) && k < |x.records|
    ensures k < |y.records| && SameOnTheWire(x.records[k], y.records[k])
  {
    hide Serialize, HoldsRecord, OpsSize, SameOnTheWire;
    SameOffsets(x.records, y.records, k);
    RecordInBlock(x, k);
    RecordInBlock(y, k);
    SameRecord(Serialize(x), Offset(x.records, k), x.records[k], y.records[k]);
  }

  lemma SameEnds(x: Block, y: Block)
    requires Serialize(x) == Serialize(y) && SameLayout(x.records, y.records)
    ensures |x.records| == |y.records| && x.prev == y.prev && x.minerId == y.minerId && x.nonce == y.nonce
  {
    hide Serialize, HoldsRecord, OpsSize, FromLittleEndian;
    FieldPositions(x);
    FieldPositions(y);
    SameOffsets(x.records, y.records, |x.records|);
  }

  // Blocks with the same bytes and the same layout agree in every field but the kinds of the block
  // and its operations, and the creators of the operations.
  lemma BytesDetermineFields(x: Block, y: Block)
    requires Serialize(x) == Serialize(y) && SameLayout(x.records, y.records)
    ensures x.prev == y.prev && x.minerId == y.minerId && x.nonce == y.nonce
    ensures forall k :: 0 <= k < |x.records| ==> SameOnTheWire(x.records[k], y.records[k])
  {
    hide *;
    SameEnds(x, y);
    forall k | 0 <= k < |x.records| ensures SameOnTheWire(x.records[k], y.records[k]) {
      SameRecordInBoth(x, y, k);
    }
  }

  // So blocks that are not genesis blocks get one id only if the hash collides on their bytes or the
  // fields agree. The id of a genesis block is the one that it holds.
  lemma IdsTellApart(md5: Hasher, x: Block, y: Block)
    requires !x.kind.Genesis? && !y.kind.Genesis? && SameLayout(x.records, y.records) && Id(md5, x) == Id(md5, y)
    requires md5(Serialize(x)) == md5(Serialize(y)) ==> Serialize(x) == Serialize(y)
    ensures x.prev == y.prev && x.minerId == y.minerId && x.nonce == y.nonce
    ensures forall k :: 0 <= k < |x.records| ==> SameOnTheWire(x.records[k], y.records[k])
  {
    BytesDetermineFields(x, y);
  }

  // A genesis block has the id that it holds, whatever else is in it; any other block has the hash of
  // all its bytes.
  lemma GenesisHoldsItsId(md5: Hasher, x: Block, y: Block)
    requires x.kind.Genesis?
    ensures Id(md5, x) == x.prev
    ensures y.kind.Genesis? ==> (Id(md5, x) == Id(md5, y) <==> x.prev == y.prev)
    ensures !y.kind.Genesis? ==> Id(md5, y) == md5(Serialize(y))
  {
  }
}
