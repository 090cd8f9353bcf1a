/**
 * SHA-256 as the phone computes it, in JavaScript's number arithmetic, against FIPS 180-4.
 *
 * The first half is the standard: words are integers below 2^32 and addition is modulo 2^32. The second
 * half is the program: every number is an integer, and only the bitwise operators bring it back to 32
 * bits, signed or unsigned.
 */
module Sha256 {
  import opened Bits
  import opened Bytes

  const WORD := 0x1_0000_0000

  type Word = x: int | 0 <= x < WORD

  // ---------------------------------------------------------------- the standard: operations on words

  lemma TwoTo32()
    ensures Pow2(32) == WORD
  {
    assert Pow2(4) == 16;
    PowSum(4, 4);
    PowSum(8, 8);
    PowSum(16, 16);
  }

  function Xor(x: Word, y: Word): Word {
    TwoTo32();
    XorBelow(x, y, 32);
    XorBits(x, y)
  }

  function And(x: Word, y: Word): Word {
    TwoTo32();
    AndBelow(x, y, 32);
    AndBits(x, y)
  }

  function Or(x: Word, y: Word): Word {
    TwoTo32();
    OrBelow(x, y, 32);
    OrBits(x, y)
  }

  function Not(x: Word): Word {
    WORD - 1 - x
  }

  function Add(x: Word, y: Word): Word {
    (x + y) % WORD
  }

  function Shr(x: Word, n: nat): Word {
    if n == 0 then x else Shr(x / 2, n - 1)
  }

  function Shl(x: Word, n: nat): Word {
    x * Pow2(n) % WORD
  }

  function RotR(x: Word, n: nat): Word
    requires n <= 32
  {
    Or(Shr(x, n), Shl(x, 32 - n))
  }

  function Ch(x: Word, y: Word, z: Word): Word { Xor(And(x, y), And(Not(x), z)) }

  function Maj(x: Word, y: Word, z: Word): Word { Xor(Xor(And(x, y), And(x, z)), And(y, z)) }

  function BigSigma0(x: Word): Word { Xor(Xor(RotR(x, 2), RotR(x, 13)), RotR(x, 22)) }

  function BigSigma1(x: Word): Word { Xor(Xor(RotR(x, 6), RotR(x, 11)), RotR(x, 25)) }

  function SmallSigma0(x: Word): Word { Xor(Xor(RotR(x, 7), RotR(x, 18)), Shr(x, 3)) }

  function SmallSigma1(x: Word): Word { Xor(Xor(RotR(x, 17), RotR(x, 19)), Shr(x, 10)) }

  // A rotation moves the low n bits to the top: it loses none of them.
  lemma RotationMovesBits(high: nat, low: nat, n: nat)
    requires 0 < n < 32 && low < Pow2(n) && high < Pow2(32 - n)
    requires high * Pow2(n) + low < WORD
    ensures RotR(high * Pow2(n) + low, n) == low * Pow2(32 - n) + high
  {
    hide OrBits, Pow2;
    TwoTo32();
    var x := high * Pow2(n) + low;
    ShrDrops(high, low, n);
    ShiftOut(x, n, 32 - n);
    assert n + (32 - n) == 32;
    RemainderIs(x, Pow2(n), high, low);
    OrOfDisjoint(high, low, 32 - n);
  }

  lemma {:induction false} ShrDrops(high: nat, low: nat, n: nat)
    requires low < Pow2(n) && high * Pow2(n) + low < WORD
    ensures Shr(high * Pow2(n) + low, n) == high
  {
    if n > 0 {
      Halve(high, Pow2(n - 1));
      ShrDrops(high, low / 2, n - 1);
    }
  }

  // ---------------------------------------------------------------- the standard: constants

  const K0: seq<Word> := [
    0x428a2f98, 0x71374491, 0xb5c0fbcf, 0xe9b5dba5, 0x3956c25b, 0x59f111f1, 0x923f82a4, 0xab1c5ed5,
    0xd807aa98, 0x12835b01, 0x243185be, 0x550c7dc3, 0x72be5d74, 0x80deb1fe, 0x9bdc06a7, 0xc19bf174]
  const K16: seq<Word> := [
    0xe49b69c1, 0xefbe4786, 0x0fc19dc6, 0x240ca1cc, 0x2de92c6f, 0x4a7484aa, 0x5cb0a9dc, 0x76f988da,
    0x983e5152, 0xa831c66d, 0xb00327c8, 0xbf597fc7, 0xc6e00bf3, 0xd5a79147, 0x06ca6351, 0x14292967]
  const K32: seq<Word> := [
    0x27b70a85, 0x2e1b2138, 0x4d2c6dfc, 0x53380d13, 0x650a7354, 0x766a0abb, 0x81c2c92e, 0x92722c85,
    0xa2bfe8a1, 0xa81a664b, 0xc24b8b70, 0xc76c51a3, 0xd192e819, 0xd6990624, 0xf40e3585, 0x106aa070]
  const K48: seq<Word> := [
    0x19a4c116, 0x1e376c08, 0x2748774c, 0x34b0bcb5, 0x391c0cb3, 0x4ed8aa4a, 0x5b9cca4f, 0x682e6ff3,
    0x748f82ee, 0x78a5636f, 0x84c87814, 0x8cc70208, 0x90befffa, 0xa4506ceb, 0xbef9a3f7, 0xc67178f2]
  const K: seq<Word> := K0 + K16 + K32 + K48

  const PRIMES0: seq<nat> := [2, 3, 5, 7, 11, 13, 17, 19, 23, 29, 31, 37, 41, 43, 47, 53]
  const PRIMES16: seq<nat> := [59, 61, 67, 71, 73, 79, 83, 89, 97, 101, 103, 107, 109, 113, 127, 131]
  const PRIMES32: seq<nat> := [137, 139, 149, 151, 157, 163, 167, 173, 179, 181, 191, 193, 197, 199, 211, 223]
  const PRIMES48: seq<nat> := [227, 229, 233, 239, 241, 251, 257, 263, 269, 271, 277, 281, 283, 293, 307, 311]
  const PRIMES: seq<nat> := PRIMES0 + PRIMES16 + PRIMES32 + PRIMES48

  const H0 := Regs(0x6a09e667, 0xbb67ae85, 0x3c6ef372, 0xa54ff53a, 0x510e527f, 0x9b05688c, 0x1f83d9ab, 0x5be0cd19)

  /** The integer part of the cube root of a number below 343. */
  function CubeFloor(p: nat): nat {
    if p < 8 then 1 else if p < 27 then 2 else if p < 64 then 3 else if p < 125 then 4 else if p < 216 then 5 else 6
  }

  function SquareFloor(p: nat): nat {
    if p < 4 then 1 else if p < 9 then 2 else if p < 16 then 3 else 4
  }

  /** `fraction` is the first 32 bits of the fractional part of the cube root of `p`. */
  predicate CubeRootBits(p: nat, fraction: Word) {
    var r := CubeFloor(p) * WORD + fraction;
    r * r * r <= p * 0x1_0000_0000_0000_0000_0000_0000 < (r + 1) * (r + 1) * (r + 1)
  }

  predicate SquareRootBits(p: nat, fraction: Word) {
    var r := SquareFloor(p) * WORD + fraction;
    r * r <= p * 0x1_0000_0000_0000_0000 < (r + 1) * (r + 1)
  }

  // The round constants are the ones section 4.2.2 defines, the initial hash value section 5.3.3's.
  lemma ConstantsAreRootsOfPrimes(i: nat)
    requires i < 64
    ensures CubeRootBits(PRIMES[i], K[i])
  {
    hide *;
    ConstantAt(i);
    PrimeAt(i);
    if i < 16 {
      Roots0(i);
    } else if i < 32 {
      Roots16(i - 16);
    } else if i < 48 {
      Roots32(i - 32);
    } else {
      Roots48(i - 48);
    }
  }

  lemma ConstantAt(i: nat)
    requires i < 64
    ensures K[i] == if i < 16 then K0[i] else if i < 32 then K16[i - 16] else if i < 48 then K32[i - 32]
                    else K48[i - 48]
  {
    Quarters(K0, K16, K32, K48, i);
  }

  lemma PrimeAt(i: nat)
    requires i < 64
    ensures PRIMES[i] == if i < 16 then PRIMES0[i] else if i < 32 then PRIMES16[i - 16]
                         else if i < 48 then PRIMES32[i - 32] else PRIMES48[i - 48]
  {
    Quarters(PRIMES0, PRIMES16, PRIMES32, PRIMES48, i);
  }

  lemma Quarters(a: seq<int>, b: seq<int>, c: seq<int>, d: seq<int>, i: nat)
    requires |a| == |b| == |c| == |d| == 16 && i < 64
    ensures (a + b + c + d)[i] ==
            if i < 16 then a[i] else if i < 32 then b[i - 16] else if i < 48 then c[i - 32] else d[i - 48]
  {
  }

  lemma InitialHashIsRootsOfPrimes()
    ensures SquareRootBits(2, H0.a) && SquareRootBits(3, H0.b) && SquareRootBits(5, H0.c) && SquareRootBits(7, H0.d)
    ensures SquareRootBits(11, H0.e) && SquareRootBits(13, H0.f) && SquareRootBits(17, H0.g) && SquareRootBits(19, H0.h)
  {
  }

  lemma Roots0(i: nat)
    requires i < 16
    ensures CubeRootBits(PRIMES0[i], K0[i])
  {
  }

  lemma Roots16(i: nat)
    requires i < 16
    ensures CubeRootBits(PRIMES16[i], K16[i])
  {
  }

  lemma Roots32(i: nat)
    requires i < 16
    ensures CubeRootBits(PRIMES32[i], K32[i])
  {
  }

  lemma Roots48(i: nat)
    requires i < 16
    ensures CubeRootBits(PRIMES48[i], K48[i])
  {
  }

  // ---------------------------------------------------------------- the standard: the hash

  datatype Regs = Regs(a: Word, b: Word, c: Word, d: Word, e: Word, f: Word, g: Word, h: Word)

  function Round(r: Regs, k: Word, w: Word): Regs {
    var t1 := Add(Add(Add(Add(r.h, BigSigma1(r.e)), Ch(r.e, r.f, r.g)), k), w);
    var t2 := Add(BigSigma0(r.a), Maj(r.a, r.b, r.c));
    Regs(Add(t1, t2), r.a, r.b, r.c, Add(r.d, t1), r.e, r.f, r.g)
  }

  function Rounds(r: Regs, w: seq<Word>, t: nat): Regs
    requires t <= |w| <= |K|
  {
    if t == 0 then r else Round(Rounds(r, w, t - 1), K[t - 1], w[t - 1])
  }

  function WordAt(bytes: seq<Byte>, i: nat): Word
    requires i + 4 <= |bytes|
  {
    (((bytes[i] as int) * 256 + bytes[i + 1]) * 256 + bytes[i + 2]) * 256 + bytes[i + 3]
  }

  function NextWord(w: seq<Word>): Word
    requires |w| >= 16
  {
    var t := |w|;
    Add(Add(Add(SmallSigma1(w[t - 2]), w[t - 7]), SmallSigma0(w[t - 15])), w[t - 16])
  }

  /** The first `t` words of the message schedule. */
  function Schedule(block: seq<Byte>, t: nat): (w: seq<Word>)
    requires |block| == 64 && t <= 64
    ensures |w| == t
  {
    if t == 0 then []
    else
      var w := Schedule(block, t - 1);
      w + [if t - 1 < 16 then WordAt(block, 4 * (t - 1)) else NextWord(w)]
  }

  function AddRegs(x: Regs, y: Regs): Regs {
    Regs(Add(x.a, y.a), Add(x.b, y.b), Add(x.c, y.c), Add(x.d, y.d),
         Add(x.e, y.e), Add(x.f, y.f), Add(x.g, y.g), Add(x.h, y.h))
  }

  function Compress(h: Regs, block: seq<Byte>): Regs
    requires |block| == 64
  {
    AddRegs(h, Rounds(h, Schedule(block, 64), 64))
  }

  /** The intermediate hash value after `n` blocks. */
  function Blocks(padded: seq<Byte>, n: nat): Regs
    requires 64 * n <= |padded|
  {
    if n == 0 then H0 else Compress(Blocks(padded, n - 1), padded[64 * (n - 1)..64 * n])
  }

  function BigEndian(x: nat, n: nat): (bytes: seq<Byte>)
    ensures |bytes| == n
  {
    if n == 0 then [] else BigEndian(x / 256, n - 1) + [x % 256]
  }

  // Written high byte first, a word is read back.
  lemma WordIsReadBack(x: Word)
    ensures WordAt(BigEndian(x, 4), 0) == x && BigEndian(x, 4)[0] == x / 0x100_0000 && BigEndian(x, 4)[3] == x % 256
  {
    FourDigits(x);
  }

  lemma FourDigits(x: Word)
    ensures BigEndian(x, 4) == [x / 0x100_0000, x / 0x1_0000 % 256, x / 256 % 256, x % 256]
  {
    assert x / 256 / 256 == x / 0x1_0000 && x / 0x1_0000 / 256 == x / 0x100_0000;
    assert BigEndian(x / 0x100_0000, 1) == [x / 0x100_0000];
    assert BigEndian(x / 0x1_0000, 2) == [x / 0x100_0000, x / 0x1_0000 % 256];
    assert BigEndian(x / 256, 3) == [x / 0x100_0000, x / 0x1_0000 % 256, x / 256 % 256];
  }

  function Digest(r: Regs): (d: seq<Byte>)
    ensures |d| == 32
  {
    BigEndian(r.a, 4) + BigEndian(r.b, 4) + BigEndian(r.c, 4) + BigEndian(r.d, 4) +
    BigEndian(r.e, 4) + BigEndian(r.f, 4) + BigEndian(r.g, 4) + BigEndian(r.h, 4)
  }

  function Zeros(n: nat): (z: seq<Byte>)
    ensures |z| == n
  {
    seq(n, i => 0)
  }

  /** The zero bytes after 0x80: the fewest that leave room for exactly the length field. */
  function PadZeros(length: nat): (k: nat)
    ensures (length + 1 + k) % 64 == 56
  {
    (55 - length) % 64
  }

  /** Longer messages have no length field. */
  const MAX_BYTES := 0x2000_0000_0000_0000

  function Padded(m: seq<Byte>): seq<Byte>
    requires |m| < MAX_BYTES
  {
    m + [0x80] + Zeros(PadZeros(|m|)) + BigEndian(8 * |m|, 8)
  }

  function HashOf(padded: seq<Byte>): seq<Byte> {
    Digest(Blocks(padded, |padded| / 64))
  }

  function Standard(m: seq<Byte>): seq<Byte>
    requires |m| < MAX_BYTES
  {
    HashOf(Padded(m))
  }

  // ---------------------------------------------------------------- padding

  /** What the program pads to: whole chunks, and only a 32-bit length. */
  function PaddedLength(length: nat): nat {
    (length + 9 + 63) / 64 * 64
  }

  function JsPadded(m: seq<Byte>): (p: seq<Byte>)
    ensures |p| == PaddedLength(|m|) && |p| % 64 == 0
  {
    m + [0x80] + Zeros(PaddedLength(|m|) - |m| - 5) + BigEndian(8 * |m| % WORD, 4)
  }

  function Pow256(n: nat): (p: nat)
    ensures p > 0
  {
    if n == 0 then 1 else 256 * Pow256(n - 1)
  }

  lemma {:induction false} BigEndianSplit(high: nat, low: nat, m: nat, n: nat)
    requires low < Pow256(n)
    ensures BigEndian(high * Pow256(n) + low, m + n) == BigEndian(high, m) + BigEndian(low, n)
    decreases n
  {
    if n == 0 {
      assert BigEndian(low, 0) == [];
      assert high * Pow256(0) + low == high;
    } else {
      TimesScaled(high, Pow256(n - 1));
      BigEndianSplit(high, low / 256, m, n - 1);
    }
  }

  lemma TimesScaled(x: nat, y: nat)
    ensures x * (256 * y) == 256 * (x * y)
  {
  }

  lemma {:induction false} BigEndianDetermines(x: nat, y: nat, n: nat)
    requires x < Pow256(n) && y < Pow256(n) && BigEndian(x, n) == BigEndian(y, n)
    ensures x == y
  {
    if n > 0 {
      var xs, ys := BigEndian(x / 256, n - 1), BigEndian(y / 256, n - 1);
      assert BigEndian(x, n)[..n - 1] == xs && BigEndian(y, n)[..n - 1] == ys;
      assert BigEndian(x, n)[n - 1] == x % 256 && BigEndian(y, n)[n - 1] == y % 256;
      BigEndianDetermines(x / 256, y / 256, n - 1);
    }
  }

  lemma {:induction false} ZeroBytes(n: nat)
    ensures BigEndian(0, n) == Zeros(n)
  {
    if n > 0 {
      ZeroBytes(n - 1);
    }
  }

  lemma LeastPadding(length: nat, j: nat)
    requires (length + 1 + j) % 64 == 56
    ensures PadZeros(length) <= j
    ensures PaddedLength(length) == length + 1 + PadZeros(length) + 8
  {
  }

  // The program's padding is the standard's exactly while the bit length fits the 32 bits it writes.
  lemma PaddingIsStandardExactlyBelow512MiB(m: seq<Byte>)
    requires |m| < MAX_BYTES
    ensures JsPadded(m) == Padded(m) <==> |m| < 0x2000_0000
  {
    hide BigEndian, Zeros;
    var zeros, bits := PadZeros(|m|), 8 * |m|;
    LeastPadding(|m|, zeros);
    var high, low := bits / WORD, bits % WORD;
    FourBytes();
    BigEndianSplit(high, low, 4, 4);
    ZeroBytes(4);
    var head := m + [0x80];
    var a, b := head + Zeros(zeros + 4) + BigEndian(low, 4), head + Zeros(zeros) + BigEndian(bits, 8);
    ZerosJoin(zeros, 4);
    assert a == head + Zeros(zeros) + (BigEndian(0, 4) + BigEndian(low, 4));
    assert b == head + Zeros(zeros) + (BigEndian(high, 4) + BigEndian(low, 4));
    if a == b {
      var n := |head + Zeros(zeros)|;
      assert a[n..n + 4] == BigEndian(0, 4) && b[n..n + 4] == BigEndian(high, 4);
      BigEndianDetermines(0, high, 4);
    }
  }

  lemma FourBytes()
    ensures Pow256(4) == WORD
  {
    assert Pow256(2) == 65536;
  }

  lemma ZerosJoin(a: nat, b: nat)
    ensures Zeros(a + b) == Zeros(a) + Zeros(b)
  {
  }

  // Different messages, of whatever length, are never padded alike.
  lemma PaddingIsInjective(x: seq<Byte>, y: seq<Byte>)
    requires JsPadded(x) == JsPadded(y)
    ensures x == y
  {
    hide BigEndian, Zeros;
    var p := JsPadded(x);
    FourBytes();
    assert p[|p| - 4..] == BigEndian(8 * |x| % WORD, 4);
    assert p[|p| - 4..] == BigEndian(8 * |y| % WORD, 4);
    BigEndianDetermines(8 * |x| % WORD, 8 * |y| % WORD, 4);
    assert |x| == |y| by {
      SameLength(|x|, |y|);
    }
    assert x == p[..|x|] && y == p[..|y|];
  }

  lemma SameLength(x: nat, y: nat)
    requires 8 * x % WORD == 8 * y % WORD && PaddedLength(x) == PaddedLength(y)
    ensures x == y
  {
    assert x - y < 64 && y - x < 64;
  }

  // ---------------------------------------------------------------- JavaScript's 32-bit operators

  function ToUint32(x: int): Word {
    x % WORD
  }

  /** What `x | 0` gives. */
  function ToInt32(x: int): int {
    if ToUint32(x) < 0x8000_0000 then ToUint32(x) else ToUint32(x) - WORD
  }

  function JsXor(x: int, y: int): int { ToInt32(Xor(ToUint32(x), ToUint32(y))) }

  function JsAnd(x: int, y: int): int { ToInt32(And(ToUint32(x), ToUint32(y))) }

  function JsOr(x: int, y: int): int { ToInt32(Or(ToUint32(x), ToUint32(y))) }

  function JsNot(x: int): int { -ToInt32(x) - 1 }

  /** `x >>> n`. */
  function JsShr(x: int, n: nat): int { Shr(ToUint32(x), n) }

  /** `x << n`. */
  function JsShl(x: int, n: nat): int { ToInt32(Shl(ToUint32(x), n)) }

  function Sha256RotR(x: int, n: nat): int
    requires n <= 32
  {
    JsOr(JsShr(x, n), JsShl(x, 32 - n))
  }

  lemma SignIsForgotten(x: int)
    ensures ToUint32(ToInt32(x)) == ToUint32(x)
  {
  }

  lemma WordIsItself(x: Word)
    ensures ToUint32(x) == x
  {
  }

  lemma SumOfWords(x: int, y: int)
    ensures ToUint32(x + y) == Add(ToUint32(x), ToUint32(y))
  {
  }

  lemma NotIsNot(x: int)
    ensures ToUint32(JsNot(x)) == Not(ToUint32(x))
  {
  }

  // Whatever the signs, the program's rotation is the standard's.
  lemma RotRIsRotR(x: int, n: nat)
    requires n <= 32
    ensures ToUint32(Sha256RotR(x, n)) == RotR(ToUint32(x), n)
  {
    hide Or, Shr, Shl, ToInt32, ToUint32;
    var u := ToUint32(x);
    WordIsItself(Shr(u, n));
    SignIsForgotten(Shl(u, 32 - n));
    WordIsItself(Shl(u, 32 - n));
    SignIsForgotten(Or(Shr(u, n), Shl(u, 32 - n)));
    WordIsItself(Or(Shr(u, n), Shl(u, 32 - n)));
  }

  lemma XorIsXor(x: int, y: int)
    ensures ToUint32(JsXor(x, y)) == Xor(ToUint32(x), ToUint32(y))
  {
    hide Xor;
    SignIsForgotten(Xor(ToUint32(x), ToUint32(y)));
  }

  lemma AndIsAnd(x: int, y: int)
    ensures ToUint32(JsAnd(x, y)) == And(ToUint32(x), ToUint32(y))
  {
    hide And;
    SignIsForgotten(And(ToUint32(x), ToUint32(y)));
  }

  function JsXor3(x: int, y: int, z: int): int { JsXor(JsXor(x, y), z) }

  lemma Xor3IsXor3(x: int, y: int, z: int)
    ensures ToUint32(JsXor3(x, y, z)) == Xor(Xor(ToUint32(x), ToUint32(y)), ToUint32(z))
  {
    hide JsXor, Xor, ToUint32;
    XorIsXor(x, y);
    XorIsXor(JsXor(x, y), z);
  }

  lemma RotationsAre(x: int, i: nat, j: nat, k: nat)
    requires i <= 32 && j <= 32 && k <= 32
    ensures ToUint32(JsXor3(Sha256RotR(x, i), Sha256RotR(x, j), Sha256RotR(x, k))) ==
            var u := ToUint32(x); Xor(Xor(RotR(u, i), RotR(u, j)), RotR(u, k))
  {
    hide JsXor3, Xor, ToUint32, Sha256RotR, RotR;
    RotRIsRotR(x, i);
    RotRIsRotR(x, j);
    RotRIsRotR(x, k);
    Xor3IsXor3(Sha256RotR(x, i), Sha256RotR(x, j), Sha256RotR(x, k));
  }

  lemma RotationsAndShiftAre(x: int, i: nat, j: nat, k: nat)
    requires i <= 32 && j <= 32
    ensures ToUint32(JsXor3(Sha256RotR(x, i), Sha256RotR(x, j), JsShr(x, k))) ==
            var u := ToUint32(x); Xor(Xor(RotR(u, i), RotR(u, j)), Shr(u, k))
  {
    hide JsXor3, Xor, ToUint32, Sha256RotR, RotR, Shr;
    RotRIsRotR(x, i);
    RotRIsRotR(x, j);
    WordIsItself(Shr(ToUint32(x), k));
    Xor3IsXor3(Sha256RotR(x, i), Sha256RotR(x, j), JsShr(x, k));
  }

  lemma ChIsCh(x: int, y: int, z: int)
    ensures ToUint32(JsXor(JsAnd(x, y), JsAnd(JsNot(x), z))) == Ch(ToUint32(x), ToUint32(y), ToUint32(z))
  {
    hide JsXor, JsAnd, JsNot, Xor, And, Not, ToUint32;
    AndIsAnd(x, y);
    NotIsNot(x);
    AndIsAnd(JsNot(x), z);
    XorIsXor(JsAnd(x, y), JsAnd(JsNot(x), z));
  }

  lemma MajIsMaj(x: int, y: int, z: int)
    ensures ToUint32(JsXor3(JsAnd(x, y), JsAnd(x, z), JsAnd(y, z))) == Maj(ToUint32(x), ToUint32(y), ToUint32(z))
  {
    hide JsXor3, JsAnd, Xor, And, ToUint32;
    AndIsAnd(x, y);
    AndIsAnd(x, z);
    AndIsAnd(y, z);
    Xor3IsXor3(JsAnd(x, y), JsAnd(x, z), JsAnd(y, z));
  }

  function Words(a: int, b: int, c: int, d: int, e: int, f: int, g: int, h: int): Regs {
    Regs(ToUint32(a), ToUint32(b), ToUint32(c), ToUint32(d), ToUint32(e), ToUint32(f), ToUint32(g), ToUint32(h))
  }

  lemma SignedSum(x: int, y: int)
    ensures ToUint32(ToInt32(x + y)) == Add(ToUint32(x), ToUint32(y))
  {
    hide Add;
    SignIsForgotten(x + y);
    SumOfWords(x, y);
  }

  lemma Temp1Is(h: int, s1: int, ch: int, k: Word, w: Word)
    ensures ToUint32(ToInt32(h + s1 + ch + k + w)) == Add(Add(Add(Add(ToUint32(h), ToUint32(s1)), ToUint32(ch)), k), w)
  {
    hide Add, ToUint32, ToInt32;
    WordIsItself(k);
    WordIsItself(w);
    SumOfWords(h, s1);
    SumOfWords(h + s1, ch);
    SumOfWords(h + s1 + ch, k);
    SumOfWords(h + s1 + ch + k, w);
    SignIsForgotten(h + s1 + ch + k + w);
  }

  // ---------------------------------------------------------------- the program

  method SetUint32(view: array<Byte>, offset: nat, value: Word)
    requires offset + 4 <= view.Length
    modifies view
    ensures view[offset..offset + 4] == BigEndian(value, 4)
    ensures forall i :: 0 <= i < view.Length && !(offset <= i < offset + 4) ==> view[i] == old(view[i])
  {
    view[offset] := value / 0x100_0000;
    view[offset + 1] := value / 0x1_0000 % 256;
    view[offset + 2] := value / 0x100 % 256;
    view[offset + 3] := value % 256;
    FourBytesOf(value);
  }

  lemma FourBytesOf(x: Word)
    ensures BigEndian(x, 4) == [x / 0x100_0000, x / 0x1_0000 % 256, x / 0x100 % 256, x % 256]
  {
    assert BigEndian(x / 0x1_0000, 2) == [x / 0x100_0000, x / 0x1_0000 % 256];
    assert BigEndian(x / 0x100, 3) == BigEndian(x / 0x1_0000, 2) + [x / 0x100 % 256];
  }

  method Pad(bytes: array<Byte>) returns (padded: array<Byte>)
    ensures fresh(padded) && padded[..] == JsPadded(bytes[..])
  {
    hide BigEndian;
    var bitLen := bytes.Length * 8;
    var paddedLen := (bytes.Length + 9 + 63) / 64 * 64;
    padded := new Byte[paddedLen](i => 0);
    for i := 0 to bytes.Length
      invariant padded[..i] == bytes[..i]
      invariant forall j :: i <= j < paddedLen ==> padded[j] == 0
    {
      padded[i] := bytes[i];
    }
    padded[bytes.Length] := 0x80;
    SetUint32(padded, paddedLen - 4, ToUint32(bitLen));
    assert padded[..] == bytes[..] + [0x80] + Zeros(paddedLen - bytes.Length - 5) + padded[paddedLen - 4..];
  }

  method PrepareSchedule(padded: array<Byte>, chunkStart: nat, w: array<Word>)
    requires chunkStart + 64 <= padded.Length && w.Length == 64
    modifies w
    ensures w[..] == Schedule(padded[chunkStart..chunkStart + 64], 64)
  {
    hide BigEndian, WordAt, NextWord, Sha256RotR, JsXor3;
    ghost var block := padded[chunkStart..chunkStart + 64];
    for i := 0 to 16
      invariant w[..i] == Schedule(block, i)
    {
      w[i] := GetUint32(padded, chunkStart + i * 4);
      SliceOfBlock(padded[..], chunkStart, i * 4);
      assert w[..i + 1] == w[..i] + [w[i]];
    }
    for i := 16 to 64
      invariant w[..i] == Schedule(block, i)
    {
      var s0 := JsXor3(Sha256RotR(w[i - 15], 7), Sha256RotR(w[i - 15], 18), JsShr(w[i - 15], 3));
      var s1 := JsXor3(Sha256RotR(w[i - 2], 17), Sha256RotR(w[i - 2], 19), JsShr(w[i - 2], 10));
      NextWordIs(w[..i], s0, s1);
      w[i] := ToUint32(ToInt32(w[i - 16] + s0 + w[i - 7] + s1));
      assert w[..i + 1] == w[..i] + [w[i]];
    }
    assert w[..64] == w[..];
  }

  function GetUint32(view: array<Byte>, offset: nat): Word
    requires offset + 4 <= view.Length
    reads view
  {
    WordAt(view[offset..offset + 4], 0)
  }

  lemma SliceOfBlock(padded: seq<Byte>, start: nat, i: nat)
    requires start + 64 <= |padded| && i + 4 <= 64
    ensures WordAt(padded[start + i..start + i + 4], 0) == WordAt(padded[start..start + 64], i)
  {
  }

  lemma NextWordIs(w: seq<Word>, s0: int, s1: int)
    requires |w| >= 16
    requires var t := |w|;
             s0 == JsXor3(Sha256RotR(w[t - 15], 7), Sha256RotR(w[t - 15], 18), JsShr(w[t - 15], 3)) &&
             s1 == JsXor3(Sha256RotR(w[t - 2], 17), Sha256RotR(w[t - 2], 19), JsShr(w[t - 2], 10))
    ensures ToUint32(ToInt32(w[|w| - 16] + s0 + w[|w| - 7] + s1)) == NextWord(w)
  {
    hide JsXor3, Sha256RotR, JsShr, Xor, RotR, Shr;
    var t := |w|;
    RotationsAndShiftAre(w[t - 15], 7, 18, 3);
    RotationsAndShiftAre(w[t - 2], 17, 19, 10);
    Reordered(w[t - 16], s0, w[t - 7], s1);
  }

  lemma Reordered(x: Word, s0: int, y: Word, s1: int)
    ensures ToUint32(ToInt32(x + s0 + y + s1)) == Add(Add(Add(ToUint32(s1), y), ToUint32(s0)), x)
  {
    hide Add, ToUint32, ToInt32;
    WordIsItself(x);
    WordIsItself(y);
    SumOfWords(s1, y);
    SumOfWords(s1 + y, s0);
    SumOfWords(s1 + y + s0, x);
    SignIsForgotten(x + s0 + y + s1);
  }

  lemma RoundIs(a: int, b: int, c: int, d: int, e: int, f: int, g: int, h: int, k: Word, w: Word,
                s1: int, ch: int, temp1: int, s0: int, maj: int, temp2: int)
    requires s1 == JsXor3(Sha256RotR(e, 6), Sha256RotR(e, 11), Sha256RotR(e, 25))
    requires ch == JsXor(JsAnd(e, f), JsAnd(JsNot(e), g))
    requires temp1 == ToInt32(h + s1 + ch + k + w)
    requires s0 == JsXor3(Sha256RotR(a, 2), Sha256RotR(a, 13), Sha256RotR(a, 22))
    requires maj == JsXor3(JsAnd(a, b), JsAnd(a, c), JsAnd(b, c))
    requires temp2 == ToInt32(s0 + maj)
    ensures Words(ToInt32(temp1 + temp2), a, b, c, ToInt32(d + temp1), e, f, g) ==
            Round(Words(a, b, c, d, e, f, g, h), k, w)
  {
    hide JsXor3, JsXor, JsAnd, JsNot, Sha256RotR, ToUint32, ToInt32, Add, Ch, Maj, Xor, RotR;
    RotationsAre(e, 6, 11, 25);
    ChIsCh(e, f, g);
    Temp1Is(h, s1, ch, k, w);
    RotationsAre(a, 2, 13, 22);
    MajIsMaj(a, b, c);
    SignedSum(s0, maj);
    SignedSum(temp1, temp2);
    SignedSum(d, temp1);
  }

  method Mix(w: array<Word>, h0: int, h1: int, h2: int, h3: int, h4: int, h5: int, h6: int, h7: int)
    returns (a: int, b: int, c: int, d: int, e: int, f: int, g: int, h: int)
    requires w.Length == 64
    ensures Words(a, b, c, d, e, f, g, h) == Rounds(Words(h0, h1, h2, h3, h4, h5, h6, h7), w[..], 64)
  {
    hide JsXor3, JsXor, JsAnd, JsNot, Sha256RotR, ToUint32, ToInt32, Round, Words;
    a, b, c, d, e, f, g, h := h0, h1, h2, h3, h4, h5, h6, h7;
    for i := 0 to 64
      invariant Words(a, b, c, d, e, f, g, h) == Rounds(Words(h0, h1, h2, h3, h4, h5, h6, h7), w[..], i)
    {
      var s1 := JsXor3(Sha256RotR(e, 6), Sha256RotR(e, 11), Sha256RotR(e, 25));
      var ch := JsXor(JsAnd(e, f), JsAnd(JsNot(e), g));
      var temp1 := ToInt32(h + s1 + ch + K[i] + w[i]);
      var s0 := JsXor3(Sha256RotR(a, 2), Sha256RotR(a, 13), Sha256RotR(a, 22));
      var maj := JsXor3(JsAnd(a, b), JsAnd(a, c), JsAnd(b, c));
      var temp2 := ToInt32(s0 + maj);
      RoundIs(a, b, c, d, e, f, g, h, K[i], w[i], s1, ch, temp1, s0, maj, temp2);
      h := g;
      g := f;
      f := e;
      e := ToInt32(d + temp1);
      d := c;
      c := b;
      b := a;
      a := ToInt32(temp1 + temp2);
    }
  }

  // For every message the program hashes what it padded, and below 2^29 bytes that is SHA-256.
  method Sha256(bytes: array<Byte>) returns (out: array<Byte>)
    ensures fresh(out) && out[..] == HashOf(JsPadded(bytes[..]))
    ensures bytes.Length < 0x2000_0000 ==> out[..] == Standard(bytes[..])
  {
    hide Words, Digest, Blocks, JsPadded, Padded;
    var padded := Pad(bytes);
    var words := HashChunks(padded);
    out := WriteWords(words);
    if bytes.Length < 0x2000_0000 {
      PaddingIsStandardExactlyBelow512MiB(bytes[..]);
    }
  }

  method HashChunks(padded: array<Byte>) returns (words: seq<int>)
    requires padded.Length % 64 == 0
    ensures |words| == 8
    ensures Words(words[0], words[1], words[2], words[3], words[4], words[5], words[6], words[7]) ==
            Blocks(padded[..], padded.Length / 64)
  {
    hide Words, Blocks, Rounds, Schedule, ToInt32, AddRegs;
    var h0, h1, h2, h3 := 0x6a09e667, 0xbb67ae85, 0x3c6ef372, 0xa54ff53a;
    var h4, h5, h6, h7 := 0x510e527f, 0x9b05688c, 0x1f83d9ab, 0x5be0cd19;
    InitialWords();
    BlocksStart(padded[..]);
    var w := new Word[64];
    var chunkStart := 0;
    while chunkStart < padded.Length
      invariant chunkStart % 64 == 0 && chunkStart <= padded.Length && fresh(w)
      invariant padded[..] == old(padded[..])
      invariant Words(h0, h1, h2, h3, h4, h5, h6, h7) == Blocks(padded[..], chunkStart / 64)
    {
      PrepareSchedule(padded, chunkStart, w);
      var a, b, c, d, e, f, g, h := Mix(w, h0, h1, h2, h3, h4, h5, h6, h7);
      SumOfRegs(h0, h1, h2, h3, h4, h5, h6, h7, a, b, c, d, e, f, g, h);
      BlocksStep(padded[..], chunkStart);
      assert padded[..][chunkStart..chunkStart + 64] == padded[chunkStart..chunkStart + 64];
      h0, h1, h2, h3 := ToInt32(h0 + a), ToInt32(h1 + b), ToInt32(h2 + c), ToInt32(h3 + d);
      h4, h5, h6, h7 := ToInt32(h4 + e), ToInt32(h5 + f), ToInt32(h6 + g), ToInt32(h7 + h);
      chunkStart := chunkStart + 64;
    }
    words := [h0, h1, h2, h3, h4, h5, h6, h7];
  }

  lemma BlocksStart(padded: seq<Byte>)
    ensures Blocks(padded, 0) == H0
  {
  }

  lemma BlocksStep(padded: seq<Byte>, start: nat)
    requires start % 64 == 0 && start + 64 <= |padded|
    ensures (start + 64) / 64 == start / 64 + 1
    ensures Blocks(padded, (start + 64) / 64) ==
            var h, block := Blocks(padded, start / 64), padded[start..start + 64];
            AddRegs(h, Rounds(h, Schedule(block, 64), 64))
  {
    hide AddRegs, Rounds, Schedule;
  }

  lemma InitialWords()
    ensures Words(0x6a09e667, 0xbb67ae85, 0x3c6ef372, 0xa54ff53a, 0x510e527f, 0x9b05688c, 0x1f83d9ab, 0x5be0cd19) == H0
  {
  }

  lemma SumOfRegs(h0: int, h1: int, h2: int, h3: int, h4: int, h5: int, h6: int, h7: int,
                  a: int, b: int, c: int, d: int, e: int, f: int, g: int, h: int)
    ensures Words(ToInt32(h0 + a), ToInt32(h1 + b), ToInt32(h2 + c), ToInt32(h3 + d),
                  ToInt32(h4 + e), ToInt32(h5 + f), ToInt32(h6 + g), ToInt32(h7 + h)) ==
            AddRegs(Words(h0, h1, h2, h3, h4, h5, h6, h7), Words(a, b, c, d, e, f, g, h))
  {
    hide ToInt32, ToUint32, Add;
    SignedSum(h0, a);
    SignedSum(h1, b);
    SignedSum(h2, c);
    SignedSum(h3, d);
    SignedSum(h4, e);
    SignedSum(h5, f);
    SignedSum(h6, g);
    SignedSum(h7, h);
  }

  method WriteWords(words: seq<int>) returns (out: array<Byte>)
    requires |words| == 8
    ensures fresh(out)
    ensures out[..] == Digest(Words(words[0], words[1], words[2], words[3], words[4], words[5], words[6], words[7]))
  {
    hide BigEndian, ToUint32;
    out := new Byte[32];
    for i := 0 to 8
      invariant forall j :: 0 <= j < i ==> out[4 * j..4 * j + 4] == BigEndian(ToUint32(words[j]), 4)
    {
      ghost var before := out[..];
      SetUint32(out, i * 4, ToUint32(words[i]));
      forall j | 0 <= j < i
        ensures out[4 * j..4 * j + 4] == before[4 * j..4 * j + 4]
      {
      }
    }
    assert out[..] == out[0..4] + out[4..8] + out[8..12] + out[12..16] +
                      out[16..20] + out[20..24] + out[24..28] + out[28..32];
  }
}
