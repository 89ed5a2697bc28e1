/** The nonce search of a miner (crypto/block.go, `FindNonceWithStopSignal`). */
module Mining {
  import opened Blocks
  import opened ProofOfWork

  function ZerosForKind(kind: BlockKind, zerosOp: int, zerosNoOp: int): int {
    match kind
    case Genesis | Regular => zerosOp
    case NoOp => zerosNoOp
  }

  predicate ValidBlock(md5: Hasher, b: Block, zerosOp: int, zerosNoOp: int) {
    MeetsTarget(Id(md5, b), ZerosForKind(b.kind, zerosOp, zerosNoOp))
  }

  function WrappingAdd(n: uint32, k: nat): uint32 {
    (n + k) % 0x1_0000_0000
  }

  // Adding one to a uint32.
  function Increment(n: uint32): uint32 {
    if n == 0xFFFF_FFFF then 0 else n + 1
  }

  lemma IncrementWraps(n: uint32, k: nat)
    ensures WrappingAdd(n, k + 1) == Increment(WrappingAdd(n, k))
  {
    var q, r := (n + k) / 0x1_0000_0000, (n + k) % 0x1_0000_0000;
    assert n + k + 1 == q * 0x1_0000_0000 + r + 1;
  }

  // The block after `rounds` rounds of a search whose first nonce is `start`; the counter wraps.
  function Attempt(b: Block, start: uint32, rounds: nat): Block {
    if rounds == 0 then b else b.(nonce := WrappingAdd(start, rounds - 1))
  }

  // The first 2^32 rounds try every nonce once, starting from `start`.
  lemma EveryNonceIsTried(b: Block, start: uint32, n: uint32) returns (rounds: nat)
    ensures 1 <= rounds <= 0x1_0000_0000 && Attempt(b, start, rounds) == b.(nonce := n)
    ensures start <= n ==> rounds == n - start + 1
  {
    rounds := (if n >= start then n - start else n + 0x1_0000_0000 - start) + 1;
    assert start + rounds - 1 == n || start + rounds - 1 == n + 0x1_0000_0000;
  }

  predicate Succeeds(md5: Hasher, b: Block, zeros: int) {
    MeetsTarget(Id(md5, b), zeros)
  }

  // Overwrites the last four bytes of a serialized block.
  method PatchNonce(ser: array<Byte>, b: Block, nonce: uint32)
    requires ser[..] == Serialize(b)
    modifies ser
    ensures ser[..] == Serialize(b.(nonce := nonce))
  {
    NonceRoundTrip(b, nonce);
    var intBuff := LittleEndian32(nonce);
    var n := ser.Length;
    ser[n - 4], ser[n - 3], ser[n - 2], ser[n - 1] := intBuff[0], intBuff[1], intBuff[2], intBuff[3];
    assert ser[..] == old(ser[..])[..n - 4] + intBuff;
  }

  // A block that is being mined: the search writes its nonce and nothing else.
  class Candidate {
    const md5: Hasher
    var block: Block

    constructor (md5: Hasher, block: Block)
      ensures this.md5 == md5 && this.block == block
    {
      this.md5 := md5;
      this.block := block;
    }

    // `start` is the random first nonce. Another thread raises the stop signal, and `stopAt` is
    // the round in which the loop first sees it raised.
    method FindNonce(zeros: int, start: uint32, stopAt: nat) returns (rounds: nat)
      modifies this
      ensures rounds <= stopAt
      ensures block == Attempt(old(block), start, rounds)
      ensures rounds < stopAt ==> Succeeds(md5, block, zeros)
      ensures forall k :: 0 <= k < rounds ==> !Succeeds(md5, Attempt(old(block), start, k), zeros)
    {
      hide Serialize, HashOf, MeetsTarget;
      rounds := 0;
      var next := start;
      var bytes := SerializeBlock(block);
      var ser := new Byte[|bytes|](i requires 0 <= i < |bytes| => bytes[i]);
      assert ser[..] == bytes;
      var ok := ProofOfWork.Valid(HashOf(md5, block, ser[..]), zeros);
      while !ok && rounds != stopAt
        invariant rounds <= stopAt && next == WrappingAdd(start, rounds)
        invariant block == Attempt(old(block), start, rounds)
        invariant ser[..] == Serialize(block)
        invariant ok == Succeeds(md5, block, zeros)
        invariant forall k :: 0 <= k < rounds ==> !Succeeds(md5, Attempt(old(block), start, k), zeros)
        decreases stopAt - rounds
      {
        PatchNonce(ser, block, next);
        block := block.(nonce := next);
        IncrementWraps(start, rounds);
        next := Increment(next);
        rounds := rounds + 1;
        ok := ProofOfWork.Valid(HashOf(md5, block, ser[..]), zeros);
      }
    }
  }
}
