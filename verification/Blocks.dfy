/** Blocks, file operations and the byte format that a block id is the hash of (crypto/block.go). */
module Blocks {

  type Byte = n: int | 0 <= n < 0x100
  type uint16 = n: int | 0 <= n < 0x1_0000
  type uint32 = n: int | 0 <= n < 0x1_0000_0000

  // A Go string is a sequence of bytes, and its length counts bytes.
  type Name = seq<Byte>

  const DIGEST_SIZE := 16
  const DATA_BLOCK_SIZE := 512

  // An md5 digest. Ids are printed as the hexadecimal form of the digest, which is a bijection,
  // so the digest itself stands for the id.
  type Digest = d: seq<Byte> | |d| == DIGEST_SIZE witness seq(DIGEST_SIZE, _ => 0)
  type RecordData = d: seq<Byte> | |d| == DATA_BLOCK_SIZE witness seq(DATA_BLOCK_SIZE, _ => 0)

  type Hasher = seq<Byte> -> Digest

  datatype OpKind = CreateFile | AppendFile | DeleteFile | UnknownOp

  datatype BlockOp = BlockOp(kind: OpKind, creator: Name, filename: Name, recordNumber: uint16, data: RecordData)

  datatype BlockKind = NoOp | Regular | Genesis

  // `prev` is the id of the preceding block; a genesis block holds its own id there.
  datatype Block = Block(kind: BlockKind, prev: Digest, records: seq<BlockOp>, minerId: Name, nonce: uint32)

  function ByteOf(n: int): Byte {
    n % 0x100
  }

  function LittleEndian16(n: uint16): seq<Byte> {
    [ByteOf(n), ByteOf(n / 0x100)]
  }

  function LittleEndian32(n: uint32): seq<Byte> {
    [ByteOf(n), ByteOf(n / 0x100), ByteOf(n / 0x1_0000), ByteOf(n / 0x100_0000)]
  }

  // Each record is followed by its number in a buffer of four bytes of which only two are used.
  function SerializeOps(ops: seq<BlockOp>): seq<Byte> {
    if ops == [] then []
    else
      var op := ops[|ops| - 1];
      SerializeOps(ops[..|ops| - 1]) + op.filename + op.data + LittleEndian16(op.recordNumber) + [0, 0]
  }

  function SerializeHead(b: Block): seq<Byte> {
    b.prev + SerializeOps(b.records) + b.minerId
  }

  function Serialize(b: Block): seq<Byte> {
    SerializeHead(b) + LittleEndian32(b.nonce)
  }

  method SerializeBlock(b: Block) returns (buf: seq<Byte>)
    ensures buf == Serialize(b)
  {
    buf := b.prev;
    var intBuff := new Byte[4](_ => 0);
    for i := 0 to |b.records|
      invariant buf == b.prev + SerializeOps(b.records[..i])
      invariant intBuff[2] == intBuff[3] == 0
    {
      var v := b.records[i];
      assert b.records[..i + 1][..i] == b.records[..i];
      buf := buf + v.filename;
      buf := buf + v.data;
      intBuff[0], intBuff[1] := ByteOf(v.recordNumber), ByteOf(v.recordNumber / 0x100);
      assert intBuff[..] == LittleEndian16(v.recordNumber) + [0, 0];
      buf := buf + intBuff[..];
    }
    assert b.records[..|b.records|] == b.records;
    buf := buf + b.minerId;
    intBuff[0], intBuff[1] := ByteOf(b.nonce), ByteOf(b.nonce / 0x100);
    intBuff[2], intBuff[3] := ByteOf(b.nonce / 0x1_0000), ByteOf(b.nonce / 0x100_0000);
    assert intBuff[..] == LittleEndian32(b.nonce);
    buf := buf + intBuff[..];
  }

  function HashOf(md5: Hasher, b: Block, ser: seq<Byte>): Digest {
    match b.kind
    case Genesis => b.prev
    case NoOp | Regular => md5(ser)
  }

  function Id(md5: Hasher, b: Block): Digest {
    HashOf(md5, b, Serialize(b))
  }

  // ---------- What the format records ----------

  function FromLittleEndian(s: seq<Byte>): int {
    if s == [] then 0 else s[0] + 0x100 * FromLittleEndian(s[1..])
  }

  // The last four bytes are the nonce, and nothing before them depends on it.
  lemma NonceRoundTrip(b: Block, n: uint32)
    ensures |Serialize(b)| >= DIGEST_SIZE + 4
    ensures FromLittleEndian(Serialize(b)[|Serialize(b)| - 4..]) == b.nonce
    ensures Serialize(b.(nonce := n)) == Serialize(b)[..|Serialize(b)| - 4] + LittleEndian32(n)
  {
    var s := Serialize(b);
    assert s[|s| - 4..] == LittleEndian32(b.nonce);
    assert s[..|s| - 4] == SerializeHead(b);
    LittleEndianRoundTrip(b.nonce);
  }

  lemma LittleEndianRoundTrip(n: uint32)
    ensures FromLittleEndian(LittleEndian32(n)) == n
  {
    hide FromLittleEndian, ByteOf;
    Digits(n);
    FourBytes(ByteOf(n), ByteOf(n / 0x100), ByteOf(n / 0x1_0000), ByteOf(n / 0x100_0000));
  }

  lemma Digits(n: uint32)
    ensures n == ByteOf(n) + 0x100 * ByteOf(n / 0x100)
               + 0x1_0000 * ByteOf(n / 0x1_0000) + 0x100_0000 * ByteOf(n / 0x100_0000)
  {
    var q1 := n / 0x100;
    var q2 := q1 / 0x100;
    var q3 := q2 / 0x100;
    assert n / 0x1_0000 == q2;
    assert n / 0x100_0000 == q3;
  }

  lemma FourBytes(a: Byte, b: Byte, c: Byte, d: Byte)
    ensures FromLittleEndian([a, b, c, d]) == a + 0x100 * b + 0x1_0000 * c + 0x100_0000 * d
  {
    assert FromLittleEndian([d]) == d;
    assert [c, d][1..] == [d];
    assert FromLittleEndian([c, d]) == c + 0x100 * d;
    assert [b, c, d][1..] == [c, d];
    assert FromLittleEndian([b, c, d]) == b + 0x100 * c + 0x1_0000 * d;
    assert [a, b, c, d][1..] == [b, c, d];
  }

  // Two operations that the byte format cannot tell apart.
  predicate SameOnTheWire(x: BlockOp, y: BlockOp) {
    x == y.(kind := x.kind, creator := x.creator)
  }

  lemma {:induction false} SerializeOpsForgets(xs: seq<BlockOp>, ys: seq<BlockOp>)
    requires |xs| == |ys| && forall i :: 0 <= i < |xs| ==> SameOnTheWire(xs[i], ys[i])
    ensures SerializeOps(xs) == SerializeOps(ys)
  {
    if xs != [] {
      SerializeOpsForgets(xs[..|xs| - 1], ys[..|ys| - 1]);
    }
  }

  // The id of a block does not depend on the kind or the creator of its operations, whatever the
  // hash: ids are not injective on blocks, and nothing below assumes that they are.
  lemma IdForgetsKindAndCreator(md5: Hasher, b: Block, ops: seq<BlockOp>)
    requires |ops| == |b.records| && forall i :: 0 <= i < |ops| ==> SameOnTheWire(ops[i], b.records[i])
    ensures Id(md5, b.(records := ops)) == Id(md5, b)
  {
    SerializeOpsForgets(ops, b.records);
  }
}
