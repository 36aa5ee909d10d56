/** The hasher core: block counting, padding and digest, saving and restoring
    (crates/md5/src/lib.rs). */
module Md5Core {
  import opened Common
  import opened Md5Rfc
  import Md5Soft

  /** The hasher's fields as a value. */
  datatype Core = Core(blockLen: U64, state: Regs)

  /** Feeding whole blocks; the block counter wraps at 2^64. */
  function Update(c: Core, blocks: seq<Block>): Core {
    Core((c.blockLen + |blocks|) % MOD64, Compress(c.state, blocks))
  }

  /** The length handed to the padding, computed as the source does with wrapping
      64-bit operations. */
  function BitLength(c: Core, pos: nat): nat {
    ((c.blockLen * 64) % MOD64 + pos) % MOD64 * 8 % MOD64
  }

  // ---------------------------------------------------------------- bytes

  const MARK: Byte := 0x80
  const ZERO: Byte := 0

  function Zeros(n: nat): (z: seq<Byte>)
    ensures |z| == n
  {
    seq(n, _ => ZERO)
  }

  /** A byte string cut into blocks; a shorter rest is dropped. */
  function Chunks(m: seq<Byte>): (blocks: seq<Block>)
    ensures |blocks| == |m| / 64
  {
    if |m| < 64 then [] else [m[..64]] + Chunks(m[64..])
  }

  lemma {:induction false} ChunksConcat(m: seq<Byte>, n: seq<Byte>)
    requires |m| % 64 == 0
    ensures Chunks(m + n) == Chunks(m) + Chunks(n)
  {
    if m == [] {
      assert m + n == n && Chunks(m) + Chunks(n) == Chunks(n);
    } else {
      assert (m + n)[..64] == m[..64] && (m + n)[64..] == m[64..] + n;
      ChunksConcat(m[64..], n);
    }
  }

  // ---------------------------------------------------------------- the digest of RFC 1321

  /** Sections 3.1 and 3.2: a one bit, zeros up to 448 modulo 512, the length. */
  function Padding(used: nat, bits: nat): (p: seq<Byte>)
    ensures (used + |p|) % 64 == 0
  {
    [MARK] + Zeros((55 - used) % 64) + LeBytes(bits, 8)
  }

  function Encode(r: Regs): (b: seq<Byte>)
    ensures |b| == 16
  {
    ToLe(r.a) + ToLe(r.b) + ToLe(r.c) + ToLe(r.d)
  }

  /** MD5 of a byte string, read off the RFC. */
  function Md5(m: seq<Byte>): seq<Byte> {
    Md5From(STATE_INIT, m)
  }

  /** The same from any initial buffer. */
  function Md5From(s: Regs, m: seq<Byte>): seq<Byte> {
    Encode(Compress(s, Chunks(m + Padding(|m|, 8 * |m| % MOD64))))
  }

  /** The digest the core produces when `rest` is still in the block buffer. */
  function Digest(c: Core, rest: seq<Byte>): seq<Byte> {
    Encode(Compress(c.state, Chunks(rest + Padding(|rest|, BitLength(c, |rest|)))))
  }

  // ---------------------------------------------------------------- streaming

  lemma MulMod(x: nat, k: nat)
    ensures (x % MOD64) * k % MOD64 == x * k % MOD64
  {
    var q := x / MOD64;
    assert x * k == (x % MOD64) * k + MOD64 * (q * k);
    ModMultiple((x % MOD64) * k, q * k);
  }

  lemma ModMultiple(r: nat, n: nat)
    ensures (r + MOD64 * n) % MOD64 == r % MOD64
  {
  }

  /** The wrapping arithmetic of the source is 8 times the byte count modulo 2^64,
      however many blocks were counted. */
  lemma LengthIsExact(c: Core, blocks: nat, pos: nat)
    requires c.blockLen == blocks % MOD64
    ensures BitLength(c, pos) == 8 * (64 * blocks + pos) % MOD64
  {
    MulMod(blocks, 64);
    var x := blocks * 64;
    AddMod(x, pos);
    MulMod(x + pos, 8);
  }

  /** Batches of blocks may be cut anywhere. */
  lemma UpdateConcat(c: Core, xs: seq<Block>, ys: seq<Block>)
    ensures Update(Update(c, xs), ys) == Update(c, xs + ys)
  {
    hide Compress;
    CompressConcat(c.state, xs, ys);
    AddMod(c.blockLen + |xs|, |ys|);
  }

  lemma AddMod(x: nat, y: nat)
    ensures (x % MOD64 + y) % MOD64 == (x + y) % MOD64
  {
    var r, q := x % MOD64, x / MOD64;
    assert x + y == (r + y) + MOD64 * q;
    ModMultiple(r + y, q);
  }

  /** A hasher with its block buffer. The buffer belongs to the digest crate; what is
      used of it is that it hands over whole blocks as soon as they are complete. */
  datatype Hasher = Hasher(core: Core, rest: seq<Byte>)

  const START: Hasher := StartFrom(STATE_INIT)

  function StartFrom(s: Regs): Hasher {
    Hasher(Core(0, s), [])
  }

  function Whole(m: seq<Byte>): (n: nat)
    ensures n <= |m| && n % 64 == 0 && |m| - n < 64
  {
    |m| - |m| % 64
  }

  function Absorb(h: Hasher, data: seq<Byte>): Hasher {
    var all := h.rest + data;
    Hasher(Update(h.core, Chunks(all[..Whole(all)])), all[Whole(all)..])
  }

  function AbsorbAll(h: Hasher, pieces: seq<seq<Byte>>): Hasher
    decreases |pieces|
  {
    if pieces == [] then h else AbsorbAll(Absorb(h, pieces[0]), pieces[1..])
  }

  function Join(pieces: seq<seq<Byte>>): seq<Byte> {
    if pieces == [] then [] else pieces[0] + Join(pieces[1..])
  }

  /** Absorbing two pieces is absorbing them joined. */
  lemma AbsorbTwice(h: Hasher, x: seq<Byte>, y: seq<Byte>)
    ensures Absorb(Absorb(h, x), y) == Absorb(h, x + y)
  {
    hide Update;
    var a := h.rest + x;
    var b := a[Whole(a)..] + y;
    var all := h.rest + (x + y);
    assert all == a[..Whole(a)] + b;
    assert all[..Whole(all)] == a[..Whole(a)] + b[..Whole(b)];
    ChunksConcat(a[..Whole(a)], b[..Whole(b)]);
    UpdateConcat(h.core, Chunks(a[..Whole(a)]), Chunks(b[..Whole(b)]));
    assert all[Whole(all)..] == b[Whole(b)..];
  }

  lemma {:induction false} AbsorbAllJoined(h: Hasher, pieces: seq<seq<Byte>>)
    requires |h.rest| < 64
    ensures AbsorbAll(h, pieces) == Absorb(h, Join(pieces))
    decreases |pieces|
  {
    if pieces == [] {
      assert h.rest + [] == h.rest && h.rest[..0] == [];
      assert Compress(h.core.state, []) == h.core.state;
    } else {
      AbsorbAllJoined(Absorb(h, pieces[0]), pieces[1..]);
      AbsorbTwice(h, pieces[0], Join(pieces[1..]));
    }
  }

  lemma SamePadding(used: nat, rest: nat, bits: nat)
    requires used % 64 == rest % 64
    ensures Padding(used, bits) == Padding(rest, bits)
  {
    assert (55 - used) % 64 == (55 - rest) % 64;
  }

  lemma AbsorbFirst(s: Regs, m: seq<Byte>)
    ensures var h := Absorb(StartFrom(s), m);
            && h.core.state == Compress(s, Chunks(m[..Whole(m)]))
            && h.core.blockLen == (Whole(m) / 64) % MOD64
            && h.rest == m[Whole(m)..]
  {
    hide Compress;
    assert [] + m == m;
  }

  /** The padding of the rest is the padding of the message. */
  lemma WholeLength(s: Regs, m: seq<Byte>)
    ensures var h := Absorb(StartFrom(s), m);
            Padding(|h.rest|, BitLength(h.core, |h.rest|)) == Padding(|m|, 8 * |m| % MOD64)
  {
    hide Compress, Padding, BitLength, Absorb;
    var h, w := Absorb(StartFrom(s), m), Whole(m);
    AbsorbFirst(s, m);
    LengthIsExact(h.core, w / 64, |h.rest|);
    assert 64 * (w / 64) + |h.rest| == |m|;
    SamePadding(|m|, |h.rest|, 8 * |m| % MOD64);
  }

  /** Absorbing a message in one piece and finishing gives its MD5. */
  lemma DigestOfWhole(s: Regs, m: seq<Byte>)
    ensures var h := Absorb(StartFrom(s), m); Digest(h.core, h.rest) == Md5From(s, m)
  {
    hide Compress, Padding, Chunks, BitLength, Absorb, Whole;
    var w, h := Whole(m), Absorb(StartFrom(s), m);
    AbsorbFirst(s, m);
    WholeLength(s, m);
    var p := Padding(|m|, 8 * |m| % MOD64);
    var tail := h.rest + p;
    assert m + p == m[..w] + tail;
    ChunksConcat(m[..w], tail);
    CompressConcat(s, Chunks(m[..w]), Chunks(tail));
  }

  /** However a message is cut into pieces, the digest is the MD5 of the message. */
  lemma StreamedDigest(pieces: seq<seq<Byte>>)
    ensures var h := AbsorbAll(START, pieces); Digest(h.core, h.rest) == Md5(Join(pieces))
  {
    hide Digest, Absorb, Md5From;
    AbsorbAllJoined(START, pieces);
    DigestOfWhole(STATE_INIT, Join(pieces));
  }

  // ---------------------------------------------------------------- saving and restoring

  function Serialized(c: Core): (b: seq<Byte>)
    ensures |b| == 24
  {
    Encode(c.state) + LeBytes(c.blockLen, 8)
  }

  function Deserialized(b: seq<Byte>): Core
    requires |b| == 24
  {
    BitsBound(b[16..]);
    Core(LeNat(b[16..]), Regs(WordAt(b, 0), WordAt(b, 4), WordAt(b, 8), WordAt(b, 12)))
  }

  lemma Pow64()
    ensures Pow256(8) == MOD64
  {
    assert Pow256(4) == 0x1_0000_0000;
  }

  lemma BitsBound(b: seq<Byte>)
    requires |b| == 8
    ensures LeNat(b) < MOD64
  {
    Pow64();
  }

  /** Which byte of the digest, and of a saved state, is which: the four words one after the
      other, the lowest byte of each first, and behind them the block counter. */
  lemma DigestBytes(r: Regs, w: nat, i: nat)
    requires w < 4 && i < 4
    ensures Encode(r)[4 * w + i] as int == Value([r.a, r.b, r.c, r.d][w]) / Pow256(i) % 256
  {
    hide LeBytes;
    LeByteAt(Value([r.a, r.b, r.c, r.d][w]), 4, i);
    assert Encode(r)[4 * w..4 * w + 4] == ToLe([r.a, r.b, r.c, r.d][w]);
    assert Encode(r)[4 * w..4 * w + 4][i] == Encode(r)[4 * w + i];
  }

  lemma SavedBytes(c: Core, i: nat)
    requires i < 24
    ensures i < 16 ==> Serialized(c)[i] == Encode(c.state)[i]
    ensures i >= 16 ==> Serialized(c)[i] as int == c.blockLen / Pow256(i - 16) % 256
  {
    hide LeBytes;
    if i >= 16 {
      LeByteAt(c.blockLen, 8, i - 16);
    }
  }

  /** The padding is the shortest one that fits: the mark, zeros, and the length in eight bytes,
      the lowest first. */
  lemma PaddingIs(used: nat, bits: nat, i: nat)
    requires i < |Padding(used, bits)|
    ensures var p := Padding(used, bits);
            && 9 <= |p| <= 72 && (used + |p|) % 64 == 0
            && p[i] as int == if i == 0 then 128 else if i < |p| - 8 then 0 else bits / Pow256(i - (|p| - 8)) % 256
  {
    hide LeBytes;
    var p := Padding(used, bits);
    if i >= |p| - 8 {
      LeByteAt(bits, 8, i - (|p| - 8));
    }
  }

  /** Saving and restoring is the identity, in both directions. */
  lemma RestoreSaved(c: Core)
    ensures Deserialized(Serialized(c)) == c
  {
    hide LeNat, LeBytes, ToLe, FromLe;
    var b := Serialized(c);
    Pow64();
    LeNatOfBytes(c.blockLen, 8);
    assert b[16..] == LeBytes(c.blockLen, 8);
    LeRoundTrip(c.state.a);
    LeRoundTrip(c.state.b);
    LeRoundTrip(c.state.c);
    LeRoundTrip(c.state.d);
    assert b[0..4] == ToLe(c.state.a) && b[4..8] == ToLe(c.state.b) && b[8..12] == ToLe(c.state.c) && b[12..16] == ToLe(c.state.d);
  }

  lemma SaveRestored(b: seq<Byte>)
    requires |b| == 24
    ensures Serialized(Deserialized(b)) == b
  {
    hide LeNat, LeBytes, ToLe, FromLe;
    LeBytesOfNat(b[16..]);
    LeRoundTripBytes(b[0..4]);
    LeRoundTripBytes(b[4..8]);
    LeRoundTripBytes(b[8..12]);
    LeRoundTripBytes(b[12..16]);
  }

  /** A save and restore between any two pieces goes unnoticed. */
  lemma ResumedDigest(before: seq<seq<Byte>>, after: seq<seq<Byte>>)
    ensures var h := AbsorbAll(START, before);
            var resumed := h.(core := Deserialized(Serialized(h.core)));
            var end := AbsorbAll(resumed, after);
            Digest(end.core, end.rest) == Md5(Join(before) + Join(after))
  {
    hide Digest, Serialized, Deserialized, Md5, Absorb;
    var h := AbsorbAll(START, before);
    RestoreSaved(h.core);
    AbsorbAllConcat(START, before, after);
    JoinConcat(before, after);
    StreamedDigest(before + after);
  }

  lemma {:induction false} AbsorbAllConcat(h: Hasher, xs: seq<seq<Byte>>, ys: seq<seq<Byte>>)
    ensures AbsorbAll(AbsorbAll(h, xs), ys) == AbsorbAll(h, xs + ys)
    decreases |xs|
  {
    hide Absorb;
    if xs == [] {
      assert xs + ys == ys;
    } else {
      AbsorbAllConcat(Absorb(h, xs[0]), xs[1..], ys);
      assert (xs + ys)[1..] == xs[1..] + ys;
    }
  }

  lemma {:induction false} JoinConcat(xs: seq<seq<Byte>>, ys: seq<seq<Byte>>)
    ensures Join(xs + ys) == Join(xs) + Join(ys)
    decreases |xs|
  {
    if xs == [] {
      assert xs + ys == ys && Join(xs) + Join(ys) == Join(ys);
    } else {
      JoinConcat(xs[1..], ys);
      assert (xs + ys)[1..] == xs[1..] + ys;
    }
  }

  // ---------------------------------------------------------------- the object

  class Md5Hasher {
    var blockLen: U64
    const state: array<Word>

    ghost predicate Valid() reads this {
      state.Length == 4
    }

    ghost function Contents(): Core
      requires Valid()
      reads this, state
    {
      Core(blockLen, View(state))
    }

    constructor ()
      ensures Valid() && fresh(state) && Contents() == START.core
    {
      blockLen := 0;
      state := new Word[4](i => WordOf(0));
      new;
      state[0], state[1], state[2], state[3] := STATE_INIT.a, STATE_INIT.b, STATE_INIT.c, STATE_INIT.d;
    }

    method UpdateBlocks(blocks: seq<Block>)
      requires Valid()
      modifies this, state
      ensures Valid() && Contents() == Update(old(Contents()), blocks)
    {
      hide Compress;
      blockLen := (blockLen + |blocks|) % MOD64;
      Md5Soft.CompressSoft(state, blocks);
    }

    /** Finishing works on a copy of the state: the hasher itself is left as it was. */
    method FinalizeFixedCore(rest: seq<Byte>) returns (out: seq<Byte>)
      requires Valid()
      ensures out == Digest(Contents(), rest)
    {
      hide Compress, CompressUpTo, CompressBlock, Chunks, Padding, ToLe;
      var bitLen := ((blockLen * 64) % MOD64 + |rest|) % MOD64 * 8 % MOD64;
      var s := new Word[4](i => WordOf(0));
      s[0], s[1], s[2], s[3] := state[0], state[1], state[2], state[3];
      var blocks := Chunks(rest + Padding(|rest|, bitLen));
      ghost var s0 := View(s);
      CompressStart(s0, blocks);
      for n := 0 to |blocks|
        invariant View(s) == CompressUpTo(s0, blocks, n)
      {
        CompressNext(s0, blocks, n);
        Md5Soft.CompressBlockInPlace(s, blocks[n]);
      }
      out := ToLe(s[0]) + ToLe(s[1]) + ToLe(s[2]) + ToLe(s[3]);
    }

    method Serialize() returns (b: seq<Byte>)
      requires Valid()
      ensures b == Serialized(Contents())
    {
      hide ToLe;
      b := [];
      for i := 0 to 4
        invariant |b| == 4 * i
        invariant forall j :: 0 <= j < i ==> b[4 * j..4 * j + 4] == ToLe(state[j])
      {
        ghost var before := b;
        b := b + ToLe(state[i]);
        assert b[..4 * i] == before && b[4 * i..4 * i + 4] == ToLe(state[i]);
        assert forall j :: 0 <= j < i ==> b[4 * j..4 * j + 4] == before[4 * j..4 * j + 4];
      }
      assert b == b[0..4] + b[4..8] + b[8..12] + b[12..16];
      b := b + LeBytes(blockLen, 8);
    }

    constructor Deserialize(b: seq<Byte>)
      requires |b| == 24
      ensures Valid() && fresh(state) && Contents() == Deserialized(b)
    {
      hide LeNat, FromLe;
      BitsBound(b[16..]);
      blockLen := LeNat(b[16..]);
      state := new Word[4](i => WordOf(0));
      new;
      for i := 0 to 4
        invariant blockLen == LeNat(b[16..])
        invariant forall j :: 0 <= j < i ==> state[j] == WordAt(b, 4 * j)
      {
        state[i] := WordAt(b, 4 * i);
      }
      assert state[0] == WordAt(b, 0) && state[1] == WordAt(b, 4) && state[2] == WordAt(b, 8) && state[3] == WordAt(b, 12);
    }
  }
}
