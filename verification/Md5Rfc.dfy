/** MD5 as section 3.4 of RFC 1321 describes it: 64 indexed steps over four registers
    whose roles rotate. Both backends are measured against this module. */
module Md5Rfc {
  import opened Arithmetic
  import opened BitLists

  // ---------------------------------------------------------------- words as bits

  newtype Byte = n: int | 0 <= n < 256

  /** Machine words as their bits, least significant first. */
  type Word = w: Bits | |w| == 32 witness seq(32, _ => false)

  const MOD32: int := 0x1_0000_0000

  lemma Pow32()
    ensures Pow2(32) == MOD32
  {
    assert Pow2(8) == 256;
    assert Pow2(16) == 0x1_0000;
    assert Pow2(24) == 0x100_0000;
  }

  function Value(x: Word): (n: nat)
    ensures n < MOD32
  {
    Pow32();
    ToNat(x)
  }

  function WordOf(n: nat): Word {
    OfNat(n, 32)
  }

  /** Addition as the processors do it: modulo 2^32. */
  function Add(x: Word, y: Word): Word {
    WordOf((Value(x) + Value(y)) % MOD32)
  }

  lemma ValueOfAdd(x: Word, y: Word)
    ensures Value(Add(x, y)) == (Value(x) + Value(y)) % MOD32
  {
    Pow32();
    NatRoundTrip((Value(x) + Value(y)) % MOD32, 32);
  }

  lemma AddCommutes(x: Word, y: Word)
    ensures Add(x, y) == Add(y, x)
  {
  }

  lemma ModSum(a: nat, b: nat, c: nat)
    requires a < MOD32 && b < MOD32 && c < MOD32
    ensures ((a + b) % MOD32 + c) % MOD32 == (a + (b + c) % MOD32) % MOD32
  {
    assert (a + b) % MOD32 == if a + b < MOD32 then a + b else a + b - MOD32;
    assert (b + c) % MOD32 == if b + c < MOD32 then b + c else b + c - MOD32;
  }

  lemma AddAssociates(x: Word, y: Word, z: Word)
    ensures Add(Add(x, y), z) == Add(x, Add(y, z))
  {
    hide Value, WordOf;
    ValueOfAdd(x, y);
    ValueOfAdd(y, z);
    ModSum(Value(x), Value(y), Value(z));
  }

  // Bitwise operations, position by position.

  function Xor(x: Word, y: Word): Word { seq(32, i requires 0 <= i < 32 => x[i] != y[i]) }
  function And(x: Word, y: Word): Word { seq(32, i requires 0 <= i < 32 => x[i] && y[i]) }
  function Or(x: Word, y: Word): Word { seq(32, i requires 0 <= i < 32 => x[i] || y[i]) }
  function Not(x: Word): Word { seq(32, i requires 0 <= i < 32 => !x[i]) }

  /** Bit i moves to position i + s, modulo 32. */
  function RotateLeft(x: Word, s: nat): Word
    requires s <= 32
  {
    x[32 - s..] + x[..32 - s]
  }

  lemma RotatedBit(x: Word, s: nat, i: nat)
    requires s <= 32 && i < 32
    ensures RotateLeft(x, s)[(i + s) % 32] == x[i]
  {
  }

  /** The four-word buffer. */
  datatype Regs = Regs(a: Word, b: Word, c: Word, d: Word)

  /** The table T; T[i] of the RFC is RC[i - 1] (crates/md5/src/consts.rs). */
  const RC: seq<nat> := [
    0xd76aa478, 0xe8c7b756, 0x242070db, 0xc1bdceee, 0xf57c0faf, 0x4787c62a, 0xa8304613, 0xfd469501,
    0x698098d8, 0x8b44f7af, 0xffff5bb1, 0x895cd7be, 0x6b901122, 0xfd987193, 0xa679438e, 0x49b40821,
    0xf61e2562, 0xc040b340, 0x265e5a51, 0xe9b6c7aa, 0xd62f105d, 0x02441453, 0xd8a1e681, 0xe7d3fbc8,
    0x21e1cde6, 0xc33707d6, 0xf4d50d87, 0x455a14ed, 0xa9e3e905, 0xfcefa3f8, 0x676f02d9, 0x8d2a4c8a,
    0xfffa3942, 0x8771f681, 0x6d9d6122, 0xfde5380c, 0xa4beea44, 0x4bdecfa9, 0xf6bb4b60, 0xbebfbc70,
    0x289b7ec6, 0xeaa127fa, 0xd4ef3085, 0x04881d05, 0xd9d4d039, 0xe6db99e5, 0x1fa27cf8, 0xc4ac5665,
    0xf4292244, 0x432aff97, 0xab9423a7, 0xfc93a039, 0x655b59c3, 0x8f0ccc92, 0xffeff47d, 0x85845dd1,
    0x6fa87e4f, 0xfe2ce6e0, 0xa3014314, 0x4e0811a1, 0xf7537e82, 0xbd3af235, 0x2ad7d2bb, 0xeb86d391
  ]

  lemma RcLength()
    ensures |RC| == 64
  {
  }

  const STATE_INIT: Regs := Regs(WordOf(0x6745_2301), WordOf(0xEFCD_AB89), WordOf(0x98BA_DCFE), WordOf(0x1032_5476))

  // The four round functions.

  function F(x: Word, y: Word, z: Word): Word { Or(And(x, y), And(Not(x), z)) }
  function G(x: Word, y: Word, z: Word): Word { Or(And(x, z), And(y, Not(z))) }
  function H(x: Word, y: Word, z: Word): Word { Xor(Xor(x, y), z) }
  function I(x: Word, y: Word, z: Word): Word { Xor(y, Or(x, Not(z))) }

  function Rc(t: nat): Word
    requires t < 64
  {
    RcLength();
    WordOf(RC[t])
  }

  function RoundFunction(t: nat, x: Word, y: Word, z: Word): Word {
    if t < 16 then F(x, y, z) else if t < 32 then G(x, y, z) else if t < 48 then H(x, y, z) else I(x, y, z)
  }

  /** Which message word step t reads. */
  function WordIndex(t: nat): (k: nat)
    ensures k < 16
  {
    if t < 16 then t % 16 else if t < 32 then (5 * t + 1) % 16 else if t < 48 then (3 * t + 5) % 16 else (7 * t) % 16
  }

  /** By how much step t rotates. */
  function Shift(t: nat): (s: nat)
    ensures 0 < s < 32
  {
    var q := t % 4;
    if t < 16 then (if q == 0 then 7 else if q == 1 then 12 else if q == 2 then 17 else 22)
    else if t < 32 then (if q == 0 then 5 else if q == 1 then 9 else if q == 2 then 14 else 20)
    else if t < 48 then (if q == 0 then 4 else if q == 1 then 11 else if q == 2 then 16 else 23)
    else (if q == 0 then 6 else if q == 1 then 10 else if q == 2 then 15 else 21)
  }

  /** [abcd k s i]: a = b + ((a + f(b,c,d) + X[k] + T[i]) <<< s). */
  function Mix(a: Word, b: Word, f: Word, m: Word, rc: Word, s: nat): Word
    requires s <= 32
  {
    Add(b, RotateLeft(Add(Add(Add(a, f), m), rc), s))
  }

  /** One step; the new word becomes b and the other three move up. */
  function Step(r: Regs, x: seq<Word>, t: nat): Regs
    requires |x| == 16 && t < 64
  {
    Regs(r.d, Mix(r.a, r.b, RoundFunction(t, r.b, r.c, r.d), x[WordIndex(t)], Rc(t), Shift(t)), r.b, r.c)
  }

  function Steps(r: Regs, x: seq<Word>, n: nat): Regs
    requires |x| == 16 && n <= 64
  {
    if n == 0 then r else Step(Steps(r, x, n - 1), x, n - 1)
  }

  function AddRegs(r: Regs, q: Regs): Regs {
    Regs(Add(r.a, q.a), Add(r.b, q.b), Add(r.c, q.c), Add(r.d, q.d))
  }

  // ---------------------------------------------------------------- words and bytes

  function Pow256(k: nat): (r: int)
    ensures r > 0
  {
    if k == 0 then 1 else 256 * Pow256(k - 1)
  }

  /** The k low bytes of a number, least significant first. */
  function LeBytes(n: nat, k: nat): (b: seq<Byte>)
    ensures |b| == k
  {
    if k == 0 then [] else [(n % 256) as Byte] + LeBytes(n / 256, k - 1)
  }

  function LeNat(b: seq<Byte>): (n: nat)
    ensures n < Pow256(|b|)
  {
    if b == [] then 0 else b[0] as int + 256 * LeNat(b[1..])
  }

  lemma {:induction false} LeNatOfBytes(n: nat, k: nat)
    requires n < Pow256(k)
    ensures LeNat(LeBytes(n, k)) == n
  {
    if k > 0 {
      LeNatOfBytes(n / 256, k - 1);
    }
  }

  lemma {:induction false} LeBytesOfNat(b: seq<Byte>)
    ensures LeBytes(LeNat(b), |b|) == b
  {
    if b != [] {
      LeBytesOfNat(b[1..]);
      LowByte(b[0], LeNat(b[1..]));
      assert b == [b[0]] + b[1..];
    }
  }

  lemma LowByte(b: Byte, rest: nat)
    ensures (b as int + 256 * rest) % 256 == b as int && (b as int + 256 * rest) / 256 == rest
  {
  }

  /** Byte i is the i-th digit to the base 256, the lowest first. */
  lemma {:induction false} LeByteAt(n: nat, k: nat, i: nat)
    requires i < k
    ensures LeBytes(n, k)[i] as int == n / Pow256(i) % 256
  {
    if i > 0 {
      LeByteAt(n / 256, k - 1, i - 1);
      DivDiv(n, 256, Pow256(i - 1));
    }
  }

  lemma Pow256Is32()
    ensures Pow256(4) == MOD32
  {
  }

  function FromLe(b: seq<Byte>): Word
    requires |b| == 4
  {
    WordOf(LeNat(b))
  }

  function ToLe(x: Word): (b: seq<Byte>)
    ensures |b| == 4
  {
    LeBytes(Value(x), 4)
  }

  lemma LeRoundTrip(x: Word)
    ensures FromLe(ToLe(x)) == x
  {
    Pow256Is32();
    LeNatOfBytes(Value(x), 4);
    BitsRoundTrip(x);
  }

  lemma LeRoundTripBytes(b: seq<Byte>)
    requires |b| == 4
    ensures ToLe(FromLe(b)) == b
  {
    Pow256Is32();
    Pow32();
    NatRoundTrip(LeNat(b), 32);
    LeBytesOfNat(b);
  }

  /** The little-endian word at a byte offset. */
  function WordAt(m: seq<Byte>, off: nat): Word
    requires off + 4 <= |m|
  {
    FromLe(m[off..off + 4])
  }

  function Words(block: seq<Byte>): (x: seq<Word>)
    requires |block| == 64
    ensures |x| == 16
  {
    seq(16, k requires 0 <= k < 16 => WordAt(block, 4 * k))
  }

  /** The state array of the hasher as a register record. */
  ghost function View(state: array<Word>): Regs
    requires state.Length == 4
    reads state
  {
    Regs(state[0], state[1], state[2], state[3])
  }

  // ---------------------------------------------------------------- blocks

  type Block = b: seq<Byte> | |b| == 64 witness seq(64, _ => 0)

  function CompressBlock(s: Regs, block: Block): Regs {
    AddRegs(s, Steps(s, Words(block), 64))
  }

  /** The state after a list of blocks. */
  function Compress(s: Regs, blocks: seq<Block>): Regs {
    if blocks == [] then s
    else CompressBlock(Compress(s, blocks[..|blocks| - 1]), blocks[|blocks| - 1])
  }

  /** The state after the first n blocks. */
  function CompressUpTo(s: Regs, blocks: seq<Block>, n: nat): Regs
    requires n <= |blocks|
  {
    Compress(s, blocks[..n])
  }

  lemma CompressStart(s: Regs, blocks: seq<Block>)
    ensures CompressUpTo(s, blocks, 0) == s && CompressUpTo(s, blocks, |blocks|) == Compress(s, blocks)
  {
    assert blocks[..|blocks|] == blocks;
  }

  lemma CompressNext(s: Regs, blocks: seq<Block>, n: nat)
    requires n < |blocks|
    ensures CompressUpTo(s, blocks, n + 1) == CompressBlock(CompressUpTo(s, blocks, n), blocks[n])
  {
    hide CompressBlock;
    assert blocks[..n + 1][..n] == blocks[..n];
  }

  /** Hashing is independent of how a block list is cut. */
  lemma {:induction false} CompressConcat(s: Regs, xs: seq<Block>, ys: seq<Block>)
    ensures Compress(s, xs + ys) == Compress(Compress(s, xs), ys)
    decreases |ys|
  {
    hide CompressBlock;
    if ys == [] {
      assert xs + ys == xs;
    } else {
      var n := |ys| - 1;
      CompressConcat(s, xs, ys[..n]);
      assert (xs + ys)[..|xs + ys| - 1] == xs + ys[..n];
    }
  }
}
