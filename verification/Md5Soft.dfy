/** The portable backend: an unrolled block function and a loop over blocks
    (crates/md5/src/compress/soft.rs). */
module Md5Soft {
  import opened Md5Rfc

  function OpF(w: Word, x: Word, y: Word, z: Word, m: Word, c: Word, s: nat): Word requires s <= 32 {
    Add(RotateLeft(Add(Add(Add(Or(And(x, y), And(Not(x), z)), w), m), c), s), x)
  }

  function OpG(w: Word, x: Word, y: Word, z: Word, m: Word, c: Word, s: nat): Word requires s <= 32 {
    Add(RotateLeft(Add(Add(Add(Or(And(x, z), And(y, Not(z))), w), m), c), s), x)
  }

  function OpH(w: Word, x: Word, y: Word, z: Word, m: Word, c: Word, s: nat): Word requires s <= 32 {
    Add(RotateLeft(Add(Add(Add(Xor(Xor(x, y), z), w), m), c), s), x)
  }

  function OpI(w: Word, x: Word, y: Word, z: Word, m: Word, c: Word, s: nat): Word requires s <= 32 {
    Add(RotateLeft(Add(Add(Add(Xor(y, Or(x, Not(z))), w), m), c), s), x)
  }

  /** The order in which the source adds up is immaterial. */
  lemma MixForm(w: Word, x: Word, f: Word, m: Word, c: Word, s: nat)
    requires s <= 32
    ensures Add(RotateLeft(Add(Add(Add(f, w), m), c), s), x) == Mix(w, x, f, m, c, s)
  {
    hide Add, RotateLeft;
    AddCommutes(f, w);
    AddCommutes(x, RotateLeft(Add(Add(Add(w, f), m), c), s));
  }

  /** Each of the four operations is one step of the RFC on the registers in their
      current roles. */
  lemma StepF(r0: Regs, x: seq<Word>, t: nat, w: Word, p: Word, y: Word, z: Word)
    requires |x| == 16 && t < 16 && Steps(r0, x, t) == Regs(w, p, y, z)
    ensures Steps(r0, x, t + 1) == Regs(z, OpF(w, p, y, z, x[WordIndex(t)], Rc(t), Shift(t)), p, y)
  {
    hide Add, RotateLeft, Mix;
    MixForm(w, p, F(p, y, z), x[WordIndex(t)], Rc(t), Shift(t));
  }

  lemma StepG(r0: Regs, x: seq<Word>, t: nat, w: Word, p: Word, y: Word, z: Word)
    requires |x| == 16 && 16 <= t < 32 && Steps(r0, x, t) == Regs(w, p, y, z)
    ensures Steps(r0, x, t + 1) == Regs(z, OpG(w, p, y, z, x[WordIndex(t)], Rc(t), Shift(t)), p, y)
  {
    hide Add, RotateLeft, Mix;
    MixForm(w, p, G(p, y, z), x[WordIndex(t)], Rc(t), Shift(t));
  }

  lemma StepH(r0: Regs, x: seq<Word>, t: nat, w: Word, p: Word, y: Word, z: Word)
    requires |x| == 16 && 32 <= t < 48 && Steps(r0, x, t) == Regs(w, p, y, z)
    ensures Steps(r0, x, t + 1) == Regs(z, OpH(w, p, y, z, x[WordIndex(t)], Rc(t), Shift(t)), p, y)
  {
    hide Add, RotateLeft, Mix;
    MixForm(w, p, H(p, y, z), x[WordIndex(t)], Rc(t), Shift(t));
  }

  lemma StepI(r0: Regs, x: seq<Word>, t: nat, w: Word, p: Word, y: Word, z: Word)
    requires |x| == 16 && 48 <= t < 64 && Steps(r0, x, t) == Regs(w, p, y, z)
    ensures Steps(r0, x, t + 1) == Regs(z, OpI(w, p, y, z, x[WordIndex(t)], Rc(t), Shift(t)), p, y)
  {
    hide Add, RotateLeft, Mix;
    MixForm(w, p, I(p, y, z), x[WordIndex(t)], Rc(t), Shift(t));
  }

  lemma Schedule1()
    ensures WordIndex(0) == 0 && Shift(0) == 7 && WordIndex(1) == 1 && Shift(1) == 12
    ensures WordIndex(2) == 2 && Shift(2) == 17 && WordIndex(3) == 3 && Shift(3) == 22
    ensures WordIndex(4) == 4 && Shift(4) == 7 && WordIndex(5) == 5 && Shift(5) == 12
    ensures WordIndex(6) == 6 && Shift(6) == 17 && WordIndex(7) == 7 && Shift(7) == 22
    ensures WordIndex(8) == 8 && Shift(8) == 7 && WordIndex(9) == 9 && Shift(9) == 12
    ensures WordIndex(10) == 10 && Shift(10) == 17 && WordIndex(11) == 11 && Shift(11) == 22
    ensures WordIndex(12) == 12 && Shift(12) == 7 && WordIndex(13) == 13 && Shift(13) == 12
    ensures WordIndex(14) == 14 && Shift(14) == 17 && WordIndex(15) == 15 && Shift(15) == 22
  {
  }

  /** Round 1 of the unrolled block function. */
  method Round1(a0: Word, b0: Word, c0: Word, d0: Word, data: seq<Word>, ghost r0: Regs) returns (a: Word, b: Word, c: Word, d: Word)
    requires |data| == 16 && Steps(r0, data, 0) == Regs(a0, b0, c0, d0)
    ensures Steps(r0, data, 16) == Regs(a, b, c, d)
  {
    hide OpF, Add, RotateLeft, Step, Steps, WordIndex, Shift, Rc;
    Schedule1();
    a, b, c, d := a0, b0, c0, d0;
    StepF(r0, data, 0, a, b, c, d);
    a := OpF(a, b, c, d, data[0], Rc(0), 7);
    StepF(r0, data, 1, d, a, b, c);
    d := OpF(d, a, b, c, data[1], Rc(1), 12);
    StepF(r0, data, 2, c, d, a, b);
    c := OpF(c, d, a, b, data[2], Rc(2), 17);
    StepF(r0, data, 3, b, c, d, a);
    b := OpF(b, c, d, a, data[3], Rc(3), 22);

    StepF(r0, data, 4, a, b, c, d);
    a := OpF(a, b, c, d, data[4], Rc(4), 7);
    StepF(r0, data, 5, d, a, b, c);
    d := OpF(d, a, b, c, data[5], Rc(5), 12);
    StepF(r0, data, 6, c, d, a, b);
    c := OpF(c, d, a, b, data[6], Rc(6), 17);
    StepF(r0, data, 7, b, c, d, a);
    b := OpF(b, c, d, a, data[7], Rc(7), 22);

    StepF(r0, data, 8, a, b, c, d);
    a := OpF(a, b, c, d, data[8], Rc(8), 7);
    StepF(r0, data, 9, d, a, b, c);
    d := OpF(d, a, b, c, data[9], Rc(9), 12);
    StepF(r0, data, 10, c, d, a, b);
    c := OpF(c, d, a, b, data[10], Rc(10), 17);
    StepF(r0, data, 11, b, c, d, a);
    b := OpF(b, c, d, a, data[11], Rc(11), 22);

    StepF(r0, data, 12, a, b, c, d);
    a := OpF(a, b, c, d, data[12], Rc(12), 7);
    StepF(r0, data, 13, d, a, b, c);
    d := OpF(d, a, b, c, data[13], Rc(13), 12);
    StepF(r0, data, 14, c, d, a, b);
    c := OpF(c, d, a, b, data[14], Rc(14), 17);
    StepF(r0, data, 15, b, c, d, a);
    b := OpF(b, c, d, a, data[15], Rc(15), 22);
  }

  lemma Schedule2()
    ensures WordIndex(16) == 1 && Shift(16) == 5 && WordIndex(17) == 6 && Shift(17) == 9
    ensures WordIndex(18) == 11 && Shift(18) == 14 && WordIndex(19) == 0 && Shift(19) == 20
    ensures WordIndex(20) == 5 && Shift(20) == 5 && WordIndex(21) == 10 && Shift(21) == 9
    ensures WordIndex(22) == 15 && Shift(22) == 14 && WordIndex(23) == 4 && Shift(23) == 20
    ensures WordIndex(24) == 9 && Shift(24) == 5 && WordIndex(25) == 14 && Shift(25) == 9
    ensures WordIndex(26) == 3 && Shift(26) == 14 && WordIndex(27) == 8 && Shift(27) == 20
    ensures WordIndex(28) == 13 && Shift(28) == 5 && WordIndex(29) == 2 && Shift(29) == 9
    ensures WordIndex(30) == 7 && Shift(30) == 14 && WordIndex(31) == 12 && Shift(31) == 20
  {
  }

  /** Round 2 of the unrolled block function. */
  method Round2(a0: Word, b0: Word, c0: Word, d0: Word, data: seq<Word>, ghost r0: Regs) returns (a: Word, b: Word, c: Word, d: Word)
    requires |data| == 16 && Steps(r0, data, 16) == Regs(a0, b0, c0, d0)
    ensures Steps(r0, data, 32) == Regs(a, b, c, d)
  {
    hide OpG, Add, RotateLeft, Step, Steps, WordIndex, Shift, Rc;
    Schedule2();
    a, b, c, d := a0, b0, c0, d0;
    StepG(r0, data, 16, a, b, c, d);
    a := OpG(a, b, c, d, data[1], Rc(16), 5);
    StepG(r0, data, 17, d, a, b, c);
    d := OpG(d, a, b, c, data[6], Rc(17), 9);
    StepG(r0, data, 18, c, d, a, b);
    c := OpG(c, d, a, b, data[11], Rc(18), 14);
    StepG(r0, data, 19, b, c, d, a);
    b := OpG(b, c, d, a, data[0], Rc(19), 20);

    StepG(r0, data, 20, a, b, c, d);
    a := OpG(a, b, c, d, data[5], Rc(20), 5);
    StepG(r0, data, 21, d, a, b, c);
    d := OpG(d, a, b, c, data[10], Rc(21), 9);
    StepG(r0, data, 22, c, d, a, b);
    c := OpG(c, d, a, b, data[15], Rc(22), 14);
    StepG(r0, data, 23, b, c, d, a);
    b := OpG(b, c, d, a, data[4], Rc(23), 20);

    StepG(r0, data, 24, a, b, c, d);
    a := OpG(a, b, c, d, data[9], Rc(24), 5);
    StepG(r0, data, 25, d, a, b, c);
    d := OpG(d, a, b, c, data[14], Rc(25), 9);
    StepG(r0, data, 26, c, d, a, b);
    c := OpG(c, d, a, b, data[3], Rc(26), 14);
    StepG(r0, data, 27, b, c, d, a);
    b := OpG(b, c, d, a, data[8], Rc(27), 20);

    StepG(r0, data, 28, a, b, c, d);
    a := OpG(a, b, c, d, data[13], Rc(28), 5);
    StepG(r0, data, 29, d, a, b, c);
    d := OpG(d, a, b, c, data[2], Rc(29), 9);
    StepG(r0, data, 30, c, d, a, b);
    c := OpG(c, d, a, b, data[7], Rc(30), 14);
    StepG(r0, data, 31, b, c, d, a);
    b := OpG(b, c, d, a, data[12], Rc(31), 20);
  }

  lemma Schedule3()
    ensures WordIndex(32) == 5 && Shift(32) == 4 && WordIndex(33) == 8 && Shift(33) == 11
    ensures WordIndex(34) == 11 && Shift(34) == 16 && WordIndex(35) == 14 && Shift(35) == 23
    ensures WordIndex(36) == 1 && Shift(36) == 4 && WordIndex(37) == 4 && Shift(37) == 11
    ensures WordIndex(38) == 7 && Shift(38) == 16 && WordIndex(39) == 10 && Shift(39) == 23
    ensures WordIndex(40) == 13 && Shift(40) == 4 && WordIndex(41) == 0 && Shift(41) == 11
    ensures WordIndex(42) == 3 && Shift(42) == 16 && WordIndex(43) == 6 && Shift(43) == 23
    ensures WordIndex(44) == 9 && Shift(44) == 4 && WordIndex(45) == 12 && Shift(45) == 11
    ensures WordIndex(46) == 15 && Shift(46) == 16 && WordIndex(47) == 2 && Shift(47) == 23
  {
  }

  /** Round 3 of the unrolled block function. */
  method Round3(a0: Word, b0: Word, c0: Word, d0: Word, data: seq<Word>, ghost r0: Regs) returns (a: Word, b: Word, c: Word, d: Word)
    requires |data| == 16 && Steps(r0, data, 32) == Regs(a0, b0, c0, d0)
    ensures Steps(r0, data, 48) == Regs(a, b, c, d)
  {
    hide OpH, Add, RotateLeft, Step, Steps, WordIndex, Shift, Rc;
    Schedule3();
    a, b, c, d := a0, b0, c0, d0;
    StepH(r0, data, 32, a, b, c, d);
    a := OpH(a, b, c, d, data[5], Rc(32), 4);
    StepH(r0, data, 33, d, a, b, c);
    d := OpH(d, a, b, c, data[8], Rc(33), 11);
    StepH(r0, data, 34, c, d, a, b);
    c := OpH(c, d, a, b, data[11], Rc(34), 16);
    StepH(r0, data, 35, b, c, d, a);
    b := OpH(b, c, d, a, data[14], Rc(35), 23);

    StepH(r0, data, 36, a, b, c, d);
    a := OpH(a, b, c, d, data[1], Rc(36), 4);
    StepH(r0, data, 37, d, a, b, c);
    d := OpH(d, a, b, c, data[4], Rc(37), 11);
    StepH(r0, data, 38, c, d, a, b);
    c := OpH(c, d, a, b, data[7], Rc(38), 16);
    StepH(r0, data, 39, b, c, d, a);
    b := OpH(b, c, d, a, data[10], Rc(39), 23);

    StepH(r0, data, 40, a, b, c, d);
    a := OpH(a, b, c, d, data[13], Rc(40), 4);
    StepH(r0, data, 41, d, a, b, c);
    d := OpH(d, a, b, c, data[0], Rc(41), 11);
    StepH(r0, data, 42, c, d, a, b);
    c := OpH(c, d, a, b, data[3], Rc(42), 16);
    StepH(r0, data, 43, b, c, d, a);
    b := OpH(b, c, d, a, data[6], Rc(43), 23);

    StepH(r0, data, 44, a, b, c, d);
    a := OpH(a, b, c, d, data[9], Rc(44), 4);
    StepH(r0, data, 45, d, a, b, c);
    d := OpH(d, a, b, c, data[12], Rc(45), 11);
    StepH(r0, data, 46, c, d, a, b);
    c := OpH(c, d, a, b, data[15], Rc(46), 16);
    StepH(r0, data, 47, b, c, d, a);
    b := OpH(b, c, d, a, data[2], Rc(47), 23);
  }

  lemma Schedule4()
    ensures WordIndex(48) == 0 && Shift(48) == 6 && WordIndex(49) == 7 && Shift(49) == 10
    ensures WordIndex(50) == 14 && Shift(50) == 15 && WordIndex(51) == 5 && Shift(51) == 21
    ensures WordIndex(52) == 12 && Shift(52) == 6 && WordIndex(53) == 3 && Shift(53) == 10
    ensures WordIndex(54) == 10 && Shift(54) == 15 && WordIndex(55) == 1 && Shift(55) == 21
    ensures WordIndex(56) == 8 && Shift(56) == 6 && WordIndex(57) == 15 && Shift(57) == 10
    ensures WordIndex(58) == 6 && Shift(58) == 15 && WordIndex(59) == 13 && Shift(59) == 21
    ensures WordIndex(60) == 4 && Shift(60) == 6 && WordIndex(61) == 11 && Shift(61) == 10
    ensures WordIndex(62) == 2 && Shift(62) == 15 && WordIndex(63) == 9 && Shift(63) == 21
  {
  }

  /** Round 4 of the unrolled block function. */
  method Round4(a0: Word, b0: Word, c0: Word, d0: Word, data: seq<Word>, ghost r0: Regs) returns (a: Word, b: Word, c: Word, d: Word)
    requires |data| == 16 && Steps(r0, data, 48) == Regs(a0, b0, c0, d0)
    ensures Steps(r0, data, 64) == Regs(a, b, c, d)
  {
    hide OpI, Add, RotateLeft, Step, Steps, WordIndex, Shift, Rc;
    Schedule4();
    a, b, c, d := a0, b0, c0, d0;
    StepI(r0, data, 48, a, b, c, d);
    a := OpI(a, b, c, d, data[0], Rc(48), 6);
    StepI(r0, data, 49, d, a, b, c);
    d := OpI(d, a, b, c, data[7], Rc(49), 10);
    StepI(r0, data, 50, c, d, a, b);
    c := OpI(c, d, a, b, data[14], Rc(50), 15);
    StepI(r0, data, 51, b, c, d, a);
    b := OpI(b, c, d, a, data[5], Rc(51), 21);

    StepI(r0, data, 52, a, b, c, d);
    a := OpI(a, b, c, d, data[12], Rc(52), 6);
    StepI(r0, data, 53, d, a, b, c);
    d := OpI(d, a, b, c, data[3], Rc(53), 10);
    StepI(r0, data, 54, c, d, a, b);
    c := OpI(c, d, a, b, data[10], Rc(54), 15);
    StepI(r0, data, 55, b, c, d, a);
    b := OpI(b, c, d, a, data[1], Rc(55), 21);

    StepI(r0, data, 56, a, b, c, d);
    a := OpI(a, b, c, d, data[8], Rc(56), 6);
    StepI(r0, data, 57, d, a, b, c);
    d := OpI(d, a, b, c, data[15], Rc(57), 10);
    StepI(r0, data, 58, c, d, a, b);
    c := OpI(c, d, a, b, data[6], Rc(58), 15);
    StepI(r0, data, 59, b, c, d, a);
    b := OpI(b, c, d, a, data[13], Rc(59), 21);

    StepI(r0, data, 60, a, b, c, d);
    a := OpI(a, b, c, d, data[4], Rc(60), 6);
    StepI(r0, data, 61, d, a, b, c);
    d := OpI(d, a, b, c, data[11], Rc(61), 10);
    StepI(r0, data, 62, c, d, a, b);
    c := OpI(c, d, a, b, data[2], Rc(62), 15);
    StepI(r0, data, 63, b, c, d, a);
    b := OpI(b, c, d, a, data[9], Rc(63), 21);
  }

  /** Decoding of a block into sixteen little-endian words. */
  method LoadWords(input: Block) returns (data: seq<Word>)
    ensures data == Words(input)
  {
    hide FromLe;
    data := [];
    for k := 0 to 16
      invariant |data| == k && forall i :: 0 <= i < k ==> data[i] == WordAt(input, 4 * i)
    {
      data := data + [FromLe(input[4 * k..4 * k + 4])];
    }
  }

  /** The unrolled function is the 64-step loop of the RFC plus the final addition. */
  method CompressBlockInPlace(state: array<Word>, input: Block)
    requires state.Length == 4
    modifies state
    ensures View(state) == CompressBlock(old(View(state)), input)
  {
    hide Steps, Step;
    var data := LoadWords(input);
    ghost var r0 := View(state);
    var a, b, c, d := state[0], state[1], state[2], state[3];
    StepsZero(r0, data);
    a, b, c, d := Round1(a, b, c, d, data, r0);
    a, b, c, d := Round2(a, b, c, d, data, r0);
    a, b, c, d := Round3(a, b, c, d, data, r0);
    a, b, c, d := Round4(a, b, c, d, data, r0);
    state[0] := Add(state[0], a);
    state[1] := Add(state[1], b);
    state[2] := Add(state[2], c);
    state[3] := Add(state[3], d);
  }

  lemma StepsZero(r0: Regs, x: seq<Word>)
    requires |x| == 16
    ensures Steps(r0, x, 0) == r0
  {
  }

  /** Any number of blocks, none included. */
  method CompressSoft(state: array<Word>, blocks: seq<Block>)
    requires state.Length == 4
    modifies state
    ensures View(state) == Compress(old(View(state)), blocks)
  {
    hide CompressBlock, CompressUpTo;
    CompressStart(View(state), blocks);
    for n := 0 to |blocks|
      invariant View(state) == CompressUpTo(old(View(state)), blocks, n)
    {
      CompressNext(old(View(state)), blocks, n);
      CompressBlockInPlace(state, blocks[n]);
    }
  }
}
