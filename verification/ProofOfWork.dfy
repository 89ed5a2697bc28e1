/** The proof of work that a block id has to carry (crypto/block.go, `valid`). */
module ProofOfWork {
  import opened Blocks

  function Pow2(e: nat): (p: nat)
    ensures p > 0
  {
    if e == 0 then 1 else 2 * Pow2(e - 1)
  }

  // The digest read as a big-endian number.
  function BigEndian(d: seq<Byte>): nat {
    if d == [] then 0 else 0x100 * BigEndian(d[..|d| - 1]) + d[|d| - 1]
  }

  // The zero bits that a target of `hexZeros` demands of a digest with this many bytes.
  function BitsOf(hexZeros: int, bytes: nat): nat {
    if hexZeros <= 0 then 0
    else if hexZeros >= 2 * bytes then 8 * bytes
    else if hexZeros % 2 == 0 then 4 * hexZeros
    else 4 * hexZeros + 1
  }

  predicate MeetsTarget(d: Digest, hexZeros: int) {
    BigEndian(d) % Pow2(BitsOf(hexZeros, DIGEST_SIZE)) == 0
  }

  // What remains to be checked of the digest when `zeros` more bits are demanded of its end.
  predicate Trailing(d: seq<Byte>, zeros: int)
    decreases |d|
  {
    zeros <= 0 || d == [] ||
    (d[|d| - 1] % (if zeros < 8 then 0x20 else 0x100) == 0 && Trailing(d[..|d| - 1], zeros - 8))
  }

  // Go's & on unsigned bytes, bit by bit.
  function BitAnd(x: nat, y: nat): nat {
    if x == 0 || y == 0 then 0
    else (if x % 2 == 1 && y % 2 == 1 then 1 else 0) + 2 * BitAnd(x / 2, y / 2)
  }

  function ShiftRight(x: nat, k: nat): nat {
    if k == 0 then x else ShiftRight(x / 2, k - 1)
  }

  // A mask of k ones keeps the remainder modulo 2^k.
  lemma {:induction false} MaskIsRemainder(x: nat, k: nat)
    ensures BitAnd(x, Pow2(k) - 1) == x % Pow2(k)
  {
    if k > 0 {
      MaskIsRemainder(x / 2, k - 1);
      HalfRemainder(x, Pow2(k - 1));
      BitAndOnes(x, Pow2(k - 1));
    }
  }

  lemma BitAndOnes(x: nat, p: nat)
    requires p > 0
    ensures BitAnd(x, 2 * p - 1) == x % 2 + 2 * BitAnd(x / 2, p - 1)
  {
    assert (2 * p - 1) / 2 == p - 1 && (2 * p - 1) % 2 == 1;
  }

  lemma HalfRemainder(x: nat, p: nat)
    requires p > 0
    ensures x % (2 * p) == x % 2 + 2 * (x / 2 % p)
  {
    var q, r := x / 2 / p, x / 2 % p;
    var y := x % 2 + 2 * r;
    assert x / 2 == p * q + r;
    assert x == (2 * p) * q + y;
    RemainderIsUnique(x, 2 * p, q, y);
  }

  lemma RemainderIsUnique(x: int, m: nat, q: int, r: nat)
    requires r < m && x == m * q + r
    ensures x % m == r
  {
    var k := x / m;
    assert x == m * k + x % m;
    assert m * (q - k) == x % m - r;
    if q != k {
      NoSmallMultiple(m, q - k);
    }
  }

  // ---------- The byte loop is divisibility by a power of two ----------

  lemma MultipleHasNoRemainder(q: int, m: int)
    requires m > 0
    ensures (m * q) % m == 0
  {
    RemainderIsUnique(m * q, m, q, 0);
  }

  lemma {:induction false} NoSmallMultiple(m: int, j: int)
    requires m > 0 && j != 0
    ensures m * j >= m || m * j <= -m
    decreases if j > 0 then j else -j
  {
    if j > 1 {
      NoSmallMultiple(m, j - 1);
      assert m * j == m * (j - 1) + m;
    } else if j < -1 {
      NoSmallMultiple(m, j + 1);
      assert m * j == m * (j + 1) - m;
    }
  }

  lemma ByteSplit(v: nat, x: nat, p: nat)
    requires p > 0 && x < 0x100
    ensures (0x100 * v + x) % (0x100 * p) == 0 <==> x == 0 && v % p == 0
  {
    var n, m := 0x100 * v + x, 0x100 * p;
    if n % m == 0 {
      var k := n / m;
      assert n == m * k == 0x100 * (p * k);
      assert v == p * k;
      MultipleHasNoRemainder(k, p);
    }
    if x == 0 && v % p == 0 {
      var k := v / p;
      assert v == p * k;
      assert n == m * k;
      MultipleHasNoRemainder(k, m);
    }
  }

  lemma AddBits(a: nat, b: nat)
    ensures Pow2(a + b) == Pow2(a) * Pow2(b)
  {
    if a > 0 {
      AddBits(a - 1, b);
    }
  }

  lemma SmallPowers()
    ensures Pow2(0) == 1 && Pow2(5) == 0x20 && Pow2(8) == 0x100
  {
    assert Pow2(3) == 8;
    assert Pow2(6) == 64;
  }

  lemma MoreBits(hexZeros: int, bytes: nat)
    requires bytes > 0 && hexZeros >= 2
    ensures Pow2(BitsOf(hexZeros, bytes)) == 0x100 * Pow2(BitsOf(hexZeros - 2, bytes - 1))
  {
    hide Pow2;
    SmallPowers();
    AddBits(8, BitsOf(hexZeros - 2, bytes - 1));
  }

  // The last byte of a digest, when more than one digit is demanded.
  lemma LastByteSplit(d: seq<Byte>, hexZeros: int)
    requires d != [] && hexZeros >= 2
    ensures BigEndian(d) % Pow2(BitsOf(hexZeros, |d|)) == 0 <==>
            d[|d| - 1] % 0x100 == 0 && BigEndian(d[..|d| - 1]) % Pow2(BitsOf(hexZeros - 2, |d| - 1)) == 0
  {
    hide Pow2, BitsOf;
    MoreBits(hexZeros, |d|);
    ByteSplit(BigEndian(d[..|d| - 1]), d[|d| - 1], Pow2(BitsOf(hexZeros - 2, |d| - 1)));
  }

  lemma LastByteOdd(d: seq<Byte>)
    requires d != []
    ensures BigEndian(d) % Pow2(BitsOf(1, |d|)) == 0 <==> d[|d| - 1] % 0x20 == 0
  {
    hide Pow2;
    SmallPowers();
    assert BigEndian(d) % 0x20 == d[|d| - 1] % 0x20;
  }

  lemma {:induction false} TrailingIsDivisible(d: seq<Byte>, hexZeros: int)
    ensures Trailing(d, 4 * hexZeros) <==> BigEndian(d) % Pow2(BitsOf(hexZeros, |d|)) == 0
    decreases |d|
  {
    hide Pow2, BigEndian;
    SmallPowers();
    if hexZeros <= 0 || d == [] {
      assert BitsOf(hexZeros, |d|) == 0;
    } else if hexZeros == 1 {
      LastByteOdd(d);
    } else {
      LastByteSplit(d, hexZeros);
      TrailingIsDivisible(d[..|d| - 1], hexZeros - 2);
    }
  }

  lemma TargetIsTrailing(d: Digest, hexZeros: int)
    ensures MeetsTarget(d, hexZeros) <==> Trailing(d, 4 * hexZeros)
  {
    hide Pow2, BigEndian, Trailing;
    TrailingIsDivisible(d, hexZeros);
  }

  // ---------- What a target promises ----------

  // A digest that meets a target meets every smaller one, and its last hexZeros hexadecimal digits
  // are zero (an odd target asks for one bit more than that).
  lemma TargetsAreNested(d: Digest, hexZeros: int, smaller: int)
    requires MeetsTarget(d, hexZeros) && smaller <= hexZeros
    ensures MeetsTarget(d, smaller)
    ensures 0 <= hexZeros <= 32 ==> BigEndian(d) % Pow2(4 * hexZeros) == 0
  {
    DividesDown(BigEndian(d), BitsOf(smaller, DIGEST_SIZE), BitsOf(hexZeros, DIGEST_SIZE));
    if 0 <= hexZeros <= 32 {
      DividesDown(BigEndian(d), 4 * hexZeros, BitsOf(hexZeros, DIGEST_SIZE));
    }
  }

  lemma DividesDown(v: nat, a: nat, b: nat)
    requires a <= b && v % Pow2(b) == 0
    ensures v % Pow2(a) == 0
  {
    AddBits(a, b - a);
    FactorDivides(v, Pow2(a), Pow2(b - a));
  }

  lemma FactorDivides(v: nat, p: nat, q: nat)
    requires p > 0 && q > 0 && p * q > 0 && v % (p * q) == 0
    ensures v % p == 0
  {
    var k := v / (p * q);
    assert v == (p * q) * k == p * (q * k);
    MultipleHasNoRemainder(q * k, p);
  }

  // An odd target is strictly stronger than the digits it is named after: one hexadecimal zero
  // costs five zero bits.
  lemma OddTargetIsStricter(d: Digest)
    requires BigEndian(d) % 0x20 == 0x10
    ensures BigEndian(d) % 0x10 == 0 && !MeetsTarget(d, 1)
  {
    SmallPowers();
  }

  lemma MaskOf(x: Byte, zeros: int)
    requires zeros > 0 && zeros % 4 == 0
    ensures zeros < 8 ==> BitAnd(x, ShiftRight(0xFF, 7 - zeros)) == x % 0x20
    ensures BitAnd(x, 0xFF) == x % 0x100
  {
    SmallPowers();
    MaskIsRemainder(x, 5);
    MaskIsRemainder(x, 8);
  }

  method Valid(hash: Digest, hexZeros: int) returns (ok: bool)
    ensures ok == MeetsTarget(hash, hexZeros)
  {
    hide MeetsTarget, BitAnd, ShiftRight;
    var zeros := hexZeros * 4;
    TargetIsTrailing(hash, hexZeros);
    var i := |hash| - 1;
    assert hash[..i + 1] == hash;
    while i >= 0 && zeros > 0
      invariant -1 <= i < |hash|
      invariant zeros % 4 == 0
      invariant MeetsTarget(hash, hexZeros) == Trailing(hash[..i + 1], zeros)
    {
      var mask := 0xFF;
      if zeros < 8 {
        mask := ShiftRight(mask, 7 - zeros);
      }
      MaskOf(hash[i], zeros);
      if BitAnd(hash[i], mask) != 0 {
        return false;
      }
      assert hash[..i + 1][..i] == hash[..i];
      zeros, i := zeros - 8, i - 1;
    }
    return true;
  }
}
