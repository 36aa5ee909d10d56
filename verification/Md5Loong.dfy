/** The LoongArch64 backend: a register program of 64 macro calls inside a loop that
    counts blocks (crates/md5/src/compress/loongarch64_asm.rs). Registers hold 32-bit
    words; the block pointer and the block counter are kept apart. */
module Md5Loong {
  import opened Md5Rfc

  datatype Reg = T0 | T1 | T2 | T3 | T4 | T5 | T6 | A4 | A5 | A6 | A7

  type File = map<Reg, Word>

  ghost predicate Full(f: File) {
    forall r: Reg :: r in f
  }

  // ---------------------------------------------------------------- instructions

  /** Bit i moves to position i - n, modulo 32. */
  function RotateRight(x: Word, n: nat): Word
    requires n <= 32
  {
    x[n..] + x[..n]
  }

  function Andn(x: Word, y: Word): Word { And(x, Not(y)) }
  function Orn(x: Word, y: Word): Word { Or(x, Not(y)) }

  /** One macro call: which round function, the four registers in their roles, the
      message word, the rotation and the step number. */
  datatype Macro = Macro(kind: nat, a: Reg, b: Reg, c: Reg, d: Reg, k: nat, s: nat, i: nat)

  const ROUND0: seq<Macro> := [
    Macro(0, T0, T1, T2, T3, 0, 7, 0), Macro(0, T3, T0, T1, T2, 1, 12, 1),
    Macro(0, T2, T3, T0, T1, 2, 17, 2), Macro(0, T1, T2, T3, T0, 3, 22, 3),
    Macro(0, T0, T1, T2, T3, 4, 7, 4), Macro(0, T3, T0, T1, T2, 5, 12, 5),
    Macro(0, T2, T3, T0, T1, 6, 17, 6), Macro(0, T1, T2, T3, T0, 7, 22, 7),
    Macro(0, T0, T1, T2, T3, 8, 7, 8), Macro(0, T3, T0, T1, T2, 9, 12, 9),
    Macro(0, T2, T3, T0, T1, 10, 17, 10), Macro(0, T1, T2, T3, T0, 11, 22, 11),
    Macro(0, T0, T1, T2, T3, 12, 7, 12), Macro(0, T3, T0, T1, T2, 13, 12, 13),
    Macro(0, T2, T3, T0, T1, 14, 17, 14), Macro(0, T1, T2, T3, T0, 15, 22, 15)
  ]

  const ROUND1: seq<Macro> := [
    Macro(1, T0, T1, T2, T3, 1, 5, 16), Macro(1, T3, T0, T1, T2, 6, 9, 17),
    Macro(1, T2, T3, T0, T1, 11, 14, 18), Macro(1, T1, T2, T3, T0, 0, 20, 19),
    Macro(1, T0, T1, T2, T3, 5, 5, 20), Macro(1, T3, T0, T1, T2, 10, 9, 21),
    Macro(1, T2, T3, T0, T1, 15, 14, 22), Macro(1, T1, T2, T3, T0, 4, 20, 23),
    Macro(1, T0, T1, T2, T3, 9, 5, 24), Macro(1, T3, T0, T1, T2, 14, 9, 25),
    Macro(1, T2, T3, T0, T1, 3, 14, 26), Macro(1, T1, T2, T3, T0, 8, 20, 27),
    Macro(1, T0, T1, T2, T3, 13, 5, 28), Macro(1, T3, T0, T1, T2, 2, 9, 29),
    Macro(1, T2, T3, T0, T1, 7, 14, 30), Macro(1, T1, T2, T3, T0, 12, 20, 31)
  ]

  const ROUND2: seq<Macro> := [
    Macro(2, T0, T1, T2, T3, 5, 4, 32), Macro(2, T3, T0, T1, T2, 8, 11, 33),
    Macro(2, T2, T3, T0, T1, 11, 16, 34), Macro(2, T1, T2, T3, T0, 14, 23, 35),
    Macro(2, T0, T1, T2, T3, 1, 4, 36), Macro(2, T3, T0, T1, T2, 4, 11, 37),
    Macro(2, T2, T3, T0, T1, 7, 16, 38), Macro(2, T1, T2, T3, T0, 10, 23, 39),
    Macro(2, T0, T1, T2, T3, 13, 4, 40), Macro(2, T3, T0, T1, T2, 0, 11, 41),
    Macro(2, T2, T3, T0, T1, 3, 16, 42), Macro(2, T1, T2, T3, T0, 6, 23, 43),
    Macro(2, T0, T1, T2, T3, 9, 4, 44), Macro(2, T3, T0, T1, T2, 12, 11, 45),
    Macro(2, T2, T3, T0, T1, 15, 16, 46), Macro(2, T1, T2, T3, T0, 2, 23, 47)
  ]

  const ROUND3: seq<Macro> := [
    Macro(3, T0, T1, T2, T3, 0, 6, 48), Macro(3, T3, T0, T1, T2, 7, 10, 49),
    Macro(3, T2, T3, T0, T1, 14, 15, 50), Macro(3, T1, T2, T3, T0, 5, 21, 51),
    Macro(3, T0, T1, T2, T3, 12, 6, 52), Macro(3, T3, T0, T1, T2, 3, 10, 53),
    Macro(3, T2, T3, T0, T1, 10, 15, 54), Macro(3, T1, T2, T3, T0, 1, 21, 55),
    Macro(3, T0, T1, T2, T3, 8, 6, 56), Macro(3, T3, T0, T1, T2, 15, 10, 57),
    Macro(3, T2, T3, T0, T1, 6, 15, 58), Macro(3, T1, T2, T3, T0, 13, 21, 59),
    Macro(3, T0, T1, T2, T3, 4, 6, 60), Macro(3, T3, T0, T1, T2, 11, 10, 61),
    Macro(3, T2, T3, T0, T1, 2, 15, 62), Macro(3, T1, T2, T3, T0, 9, 21, 63)
  ]

  lemma ProgramLength()
    ensures |ROUND0| == 16 && |ROUND1| == 16 && |ROUND2| == 16 && |ROUND3| == 16
  {
  }

  /** The 64 macro calls in program order. */
  function Program(n: nat): Macro
    requires n < 64
  {
    ProgramLength();
    if n < 16 then ROUND0[n] else if n < 32 then ROUND1[n - 16] else if n < 48 then ROUND2[n - 32] else ROUND3[n - 48]
  }

  /** The instructions of a macro in front of the common tail; the result is in T4. */
  function Front(m: Macro, f: File): File
    requires Full(f)
  {
    if m.kind == 0 then
      var f1 := f[T4 := Xor(f[m.c], f[m.d])];
      var f2 := f1[T4 := And(f1[T4], f1[m.b])];
      f2[T4 := Xor(f2[T4], f2[m.d])]
    else if m.kind == 1 then
      var f1 := f[T4 := Andn(f[m.c], f[m.d])];
      var f2 := f1[T5 := And(f1[m.d], f1[m.b])];
      f2[T4 := Or(f2[T4], f2[T5])]
    else if m.kind == 2 then
      var f1 := f[T4 := Xor(f[m.c], f[m.d])];
      f1[T4 := Xor(f1[T4], f1[m.b])]
    else
      var f1 := f[T4 := Orn(f[m.b], f[m.d])];
      f1[T4 := Xor(f1[T4], f1[m.c])]
  }

  /** The common tail: load the constant and the message word, add, rotate, add. */
  function Tail(m: Macro, f: File, mem: seq<Byte>, ptr: nat): File
    requires Full(f) && m.i < 64 && ptr + 4 * m.k + 4 <= |mem| && m.s <= 32
  {
    var f1 := f[T5 := Rc(m.i)];
    var f2 := f1[T6 := WordAt(mem, ptr + 4 * m.k)];
    var f3 := f2[m.a := Add(f2[m.a], f2[T5])];
    var f4 := f3[m.a := Add(f3[m.a], f3[T6])];
    var f5 := f4[m.a := Add(f4[m.a], f4[T4])];
    var f6 := f5[m.a := RotateRight(f5[m.a], 32 - m.s)];
    f6[m.a := Add(f6[m.a], f6[m.b])]
  }

  function Exec(m: Macro, f: File, mem: seq<Byte>, ptr: nat): File
    requires Full(f) && m.i < 64 && ptr + 4 * m.k + 4 <= |mem| && m.s <= 32
  {
    Tail(m, Front(m, f), mem, ptr)
  }

  // ---------------------------------------------------------------- agreement with the RFC

  // The boolean forms of the macros are the round functions.

  lemma Form0(b: Word, c: Word, d: Word)
    ensures Xor(And(Xor(c, d), b), d) == F(b, c, d)
  {
  }

  lemma Form1(b: Word, c: Word, d: Word)
    ensures Or(Andn(c, d), And(d, b)) == G(b, c, d)
  {
  }

  lemma Form2(b: Word, c: Word, d: Word)
    ensures Xor(Xor(c, d), b) == H(b, c, d)
  {
  }

  lemma Form3(b: Word, c: Word, d: Word)
    ensures Xor(Orn(b, d), c) == I(b, c, d)
  {
  }

  lemma RotateForm(x: Word, s: nat)
    requires 0 < s < 32
    ensures RotateRight(x, 32 - s) == RotateLeft(x, s)
  {
  }

  /** The order in which the tail adds up is immaterial. */
  lemma SumForm(a: Word, rc: Word, m: Word, f: Word)
    ensures Add(Add(Add(a, rc), m), f) == Add(Add(Add(a, f), m), rc)
  {
    hide Add;
    calc {
      Add(Add(Add(a, rc), m), f);
      { AddAssociates(a, rc, m); AddAssociates(a, Add(rc, m), f); }
      Add(a, Add(Add(rc, m), f));
      { AddAssociates(rc, m, f); AddCommutes(m, f); AddCommutes(rc, Add(f, m)); }
      Add(a, Add(Add(f, m), rc));
      { AddAssociates(a, Add(f, m), rc); AddAssociates(a, f, m); }
      Add(Add(Add(a, f), m), rc);
    }
  }

  /** The round function a macro kind computes. */
  function KindFunction(kind: nat, x: Word, y: Word, z: Word): Word {
    if kind == 0 then F(x, y, z) else if kind == 1 then G(x, y, z) else if kind == 2 then H(x, y, z) else I(x, y, z)
  }

  /** The four work registers. */
  predicate Work(r: Reg) { r == T0 || r == T1 || r == T2 || r == T3 }

  predicate Preserved(r: Reg) { Work(r) || r == A4 || r == A5 || r == A6 || r == A7 }

  predicate RolesDistinct(m: Macro) {
    Work(m.a) && Work(m.b) && Work(m.c) && Work(m.d) &&
    m.a != m.b && m.a != m.c && m.a != m.d && m.b != m.c && m.b != m.d && m.c != m.d
  }

  lemma FrontEffect(m: Macro, f: File)
    requires Full(f) && RolesDistinct(m)
    ensures Full(Front(m, f)) && Front(m, f)[T4] == KindFunction(m.kind, f[m.b], f[m.c], f[m.d])
    ensures forall r :: Preserved(r) ==> Front(m, f)[r] == f[r]
  {
    hide Xor, And, Or, Andn, Orn, F, G, H, I;
    Form0(f[m.b], f[m.c], f[m.d]);
    Form1(f[m.b], f[m.c], f[m.d]);
    Form2(f[m.b], f[m.c], f[m.d]);
    Form3(f[m.b], f[m.c], f[m.d]);
  }

  lemma TailEffect(m: Macro, f: File, mem: seq<Byte>, ptr: nat)
    requires Full(f) && RolesDistinct(m) && m.i < 64 && ptr + 4 * m.k + 4 <= |mem| && 0 < m.s < 32
    ensures var f' := Tail(m, f, mem, ptr);
            && Full(f')
            && f'[m.a] == Mix(f[m.a], f[m.b], f[T4], WordAt(mem, ptr + 4 * m.k), Rc(m.i), m.s)
            && forall r :: Preserved(r) && r != m.a ==> f'[r] == f[r]
  {
    hide Add, RotateLeft, RotateRight, Rc, WordAt;
    var w := WordAt(mem, ptr + 4 * m.k);
    SumForm(f[m.a], Rc(m.i), w, f[T4]);
    RotateForm(Add(Add(Add(f[m.a], f[T4]), w), Rc(m.i)), m.s);
    AddCommutes(f[m.b], RotateLeft(Add(Add(Add(f[m.a], f[T4]), w), Rc(m.i)), m.s));
  }

  /** A macro call performs one mixing operation on one register and keeps every other
      register that is still needed. */
  lemma ExecEffect(m: Macro, f: File, mem: seq<Byte>, ptr: nat)
    requires Full(f) && RolesDistinct(m) && m.i < 64 && ptr + 4 * m.k + 4 <= |mem| && 0 < m.s < 32
    ensures var f' := Exec(m, f, mem, ptr);
            && Full(f')
            && f'[m.a] == Mix(f[m.a], f[m.b], KindFunction(m.kind, f[m.b], f[m.c], f[m.d]), WordAt(mem, ptr + 4 * m.k), Rc(m.i), m.s)
            && forall r :: Preserved(r) && r != m.a ==> f'[r] == f[r]
  {
    hide Front, Tail, Mix, KindFunction, Rc, WordAt;
    FrontEffect(m, f);
    TailEffect(m, Front(m, f), mem, ptr);
  }

  /** The registers that play a, b, c and d before step t. */
  function Roles(t: nat): (Reg, Reg, Reg, Reg) {
    var q := t % 4;
    if q == 0 then (T0, T1, T2, T3) else if q == 1 then (T3, T0, T1, T2)
    else if q == 2 then (T2, T3, T0, T1) else (T1, T2, T3, T0)
  }

  /** The macro that step t of the RFC calls for. */
  function Expected(t: nat): Macro {
    Macro(t / 16, Roles(t).0, Roles(t).1, Roles(t).2, Roles(t).3, WordIndex(t), Shift(t), t)
  }

  lemma Rows0a()
    ensures |ROUND0| == 16
    ensures ROUND0[0] == Expected(0) && ROUND0[1] == Expected(1) && ROUND0[2] == Expected(2) && ROUND0[3] == Expected(3)
    ensures ROUND0[4] == Expected(4) && ROUND0[5] == Expected(5) && ROUND0[6] == Expected(6) && ROUND0[7] == Expected(7)
  {
  }

  lemma Rows0b()
    ensures |ROUND0| == 16
    ensures ROUND0[8] == Expected(8) && ROUND0[9] == Expected(9) && ROUND0[10] == Expected(10) && ROUND0[11] == Expected(11)
    ensures ROUND0[12] == Expected(12) && ROUND0[13] == Expected(13) && ROUND0[14] == Expected(14) && ROUND0[15] == Expected(15)
  {
  }

  lemma Rows1a()
    ensures |ROUND1| == 16
    ensures ROUND1[0] == Expected(16) && ROUND1[1] == Expected(17) && ROUND1[2] == Expected(18) && ROUND1[3] == Expected(19)
    ensures ROUND1[4] == Expected(20) && ROUND1[5] == Expected(21) && ROUND1[6] == Expected(22) && ROUND1[7] == Expected(23)
  {
  }

  lemma Rows1b()
    ensures |ROUND1| == 16
    ensures ROUND1[8] == Expected(24) && ROUND1[9] == Expected(25) && ROUND1[10] == Expected(26) && ROUND1[11] == Expected(27)
    ensures ROUND1[12] == Expected(28) && ROUND1[13] == Expected(29) && ROUND1[14] == Expected(30) && ROUND1[15] == Expected(31)
  {
  }

  lemma Rows2a()
    ensures |ROUND2| == 16
    ensures ROUND2[0] == Expected(32) && ROUND2[1] == Expected(33) && ROUND2[2] == Expected(34) && ROUND2[3] == Expected(35)
    ensures ROUND2[4] == Expected(36) && ROUND2[5] == Expected(37) && ROUND2[6] == Expected(38) && ROUND2[7] == Expected(39)
  {
  }

  lemma Rows2b()
    ensures |ROUND2| == 16
    ensures ROUND2[8] == Expected(40) && ROUND2[9] == Expected(41) && ROUND2[10] == Expected(42) && ROUND2[11] == Expected(43)
    ensures ROUND2[12] == Expected(44) && ROUND2[13] == Expected(45) && ROUND2[14] == Expected(46) && ROUND2[15] == Expected(47)
  {
  }

  lemma Rows3a()
    ensures |ROUND3| == 16
    ensures ROUND3[0] == Expected(48) && ROUND3[1] == Expected(49) && ROUND3[2] == Expected(50) && ROUND3[3] == Expected(51)
    ensures ROUND3[4] == Expected(52) && ROUND3[5] == Expected(53) && ROUND3[6] == Expected(54) && ROUND3[7] == Expected(55)
  {
  }

  lemma Rows3b()
    ensures |ROUND3| == 16
    ensures ROUND3[8] == Expected(56) && ROUND3[9] == Expected(57) && ROUND3[10] == Expected(58) && ROUND3[11] == Expected(59)
    ensures ROUND3[12] == Expected(60) && ROUND3[13] == Expected(61) && ROUND3[14] == Expected(62) && ROUND3[15] == Expected(63)
  {
  }

  /** The program text is the schedule of the RFC. */
  lemma ProgramIsSchedule(n: nat)
    requires n < 64
    ensures Program(n) == Expected(n)
  {
    hide Expected;
    if n < 16 {
      Rows0a();
      Rows0b();
    } else if n < 32 {
      Rows1a();
      Rows1b();
    } else if n < 48 {
      Rows2a();
      Rows2b();
    } else {
      Rows3a();
      Rows3b();
    }
  }

  lemma RolesAreDistinct(t: nat)
    ensures RolesDistinct(Expected(t))
    ensures Roles(t + 1) == (Roles(t).3, Roles(t).0, Roles(t).1, Roles(t).2)
  {
    hide WordIndex, Shift;
  }

  /** The work registers hold the RFC registers, each in its current role. */
  ghost predicate Holds(f: File, t: nat, r: Regs) {
    Full(f) && f[Roles(t).0] == r.a && f[Roles(t).1] == r.b && f[Roles(t).2] == r.c && f[Roles(t).3] == r.d
  }

  /** One macro call is one RFC step. */
  lemma MacroIsStep(f: File, mem: seq<Byte>, ptr: nat, r: Regs, x: seq<Word>, t: nat)
    requires |x| == 16 && t < 64 && ptr + 64 <= |mem|
    requires forall k :: 0 <= k < 16 ==> x[k] == WordAt(mem, ptr + 4 * k)
    requires Holds(f, t, r)
    ensures var f' := Exec(Expected(t), f, mem, ptr);
            && Holds(f', t + 1, Step(r, x, t))
            && forall q :: q == A4 || q == A5 || q == A6 || q == A7 ==> f'[q] == f[q]
  {
    hide Mix, Exec, Rc, WordAt, F, G, H, I, WordIndex, Shift, Roles;
    RolesAreDistinct(t);
    ExecEffect(Expected(t), f, mem, ptr);
  }

  // ---------------------------------------------------------------- the block loop

  /** The bytes behind the block pointer. */
  function Flat(blocks: seq<Block>): (m: seq<Byte>)
    ensures |m| == 64 * |blocks|
  {
    if blocks == [] then [] else blocks[0] + Flat(blocks[1..])
  }

  lemma {:induction false} FlatBytes(blocks: seq<Block>, n: nat)
    requires n < |blocks|
    ensures Flat(blocks)[64 * n..64 * n + 64] == blocks[n]
  {
    if n > 0 {
      FlatBytes(blocks[1..], n - 1);
      assert Flat(blocks)[64 * n..64 * n + 64] == Flat(blocks[1..])[64 * (n - 1)..64 * (n - 1) + 64];
    }
  }

  lemma SliceOfSlice(m: seq<Byte>, from: nat, length: nat, k: nat, size: nat)
    requires from + length <= |m| && k + size <= length
    ensures m[from..from + length][k..k + size] == m[from + k..from + k + size]
  {
    var a, b := m[from..from + length][k..k + size], m[from + k..from + k + size];
    assert |a| == |b| && forall i :: 0 <= i < size ==> a[i] == b[i];
  }

  /** The words a macro loads are the words of the current block. */
  lemma FlatWords(blocks: seq<Block>, n: nat)
    requires n < |blocks|
    ensures forall k :: 0 <= k < 16 ==> Words(blocks[n])[k] == WordAt(Flat(blocks), 64 * n + 4 * k)
  {
    hide FromLe;
    var m := Flat(blocks);
    FlatBytes(blocks, n);
    forall k | 0 <= k < 16
      ensures Words(blocks[n])[k] == WordAt(m, 64 * n + 4 * k)
    {
      SliceOfSlice(m, 64 * n, 64, 4 * k, 4);
    }
  }

  ghost function Saved(f: File): Regs
    requires Full(f)
  {
    Regs(f[A4], f[A5], f[A6], f[A7])
  }

  /** The 64 macro calls on one block. */
  method RunBlock(f0: File, mem: seq<Byte>, ptr: nat, ghost block: Block) returns (f: File)
    requires Full(f0) && ptr + 64 <= |mem|
    requires forall k :: 0 <= k < 16 ==> Words(block)[k] == WordAt(mem, ptr + 4 * k)
    ensures Full(f) && Saved(f) == CompressBlock(Saved(f0), block)
  {
    hide Exec, Step, Words, WordAt, Program, Expected, Add;
    ghost var s, x := Saved(f0), Words(block);
    f := f0[T0 := f0[A4]][T1 := f0[A5]][T2 := f0[A6]][T3 := f0[A7]];
    for i := 0 to 64
      invariant Holds(f, i, Steps(s, x, i)) && Saved(f) == s
    {
      ProgramIsSchedule(i);
      ProgramFits(i);
      MacroIsStep(f, mem, ptr, Steps(s, x, i), x, i);
      f := Exec(Program(i), f, mem, ptr);
    }
    f := f[A4 := Add(f[A4], f[T0])][A5 := Add(f[A5], f[T1])][A6 := Add(f[A6], f[T2])][A7 := Add(f[A7], f[T3])];
  }

  lemma ProgramFits(i: nat)
    requires i < 64
    ensures Expected(i).i == i && Expected(i).k < 16 && 0 < Expected(i).s < 32
  {
  }

  /** The register file on entry; what the scratch registers hold is immaterial. */
  function Entry(a: Word, b: Word, c: Word, d: Word): File {
    map[T0 := a, T1 := a, T2 := a, T3 := a, T4 := a, T5 := a, T6 := a, A4 := a, A5 := b, A6 := c, A7 := d]
  }

  lemma EntryIsFull(a: Word, b: Word, c: Word, d: Word)
    ensures Full(Entry(a, b, c, d)) && Saved(Entry(a, b, c, d)) == Regs(a, b, c, d)
  {
    forall r: Reg
      ensures r in Entry(a, b, c, d)
    {
      match r
      case T0 => case T1 => case T2 => case T3 => case T4 => case T5 => case T6 =>
      case A4 => case A5 => case A6 => case A7 =>
    }
  }

  /** The register program computes the same state as the RFC, hence as the portable
      backend, for every block list, the empty one included. */
  method CompressLoong(state: array<Word>, blocks: seq<Block>)
    requires state.Length == 4
    modifies state
    ensures View(state) == Compress(old(View(state)), blocks)
  {
    hide CompressBlock, CompressUpTo, Compress, Words, WordAt, Flat, Entry;
    CompressStart(View(state), blocks);
    CompressStart(View(state), []);
    if blocks == [] {
      return;
    }
    var mem := Flat(blocks);
    EntryIsFull(state[0], state[1], state[2], state[3]);
    var f := Entry(state[0], state[1], state[2], state[3]);
    var ptr, count := 0, |blocks|;
    while true
      invariant 0 < count <= |blocks| && ptr == 64 * (|blocks| - count)
      invariant Full(f) && Saved(f) == CompressUpTo(old(View(state)), blocks, |blocks| - count)
      decreases count
    {
      ghost var n := |blocks| - count;
      FlatWords(blocks, n);
      CompressNext(old(View(state)), blocks, n);
      f := RunBlock(f, mem, ptr, blocks[n]);
      ptr, count := ptr + 64, count - 1;
      if count == 0 {
        break;
      }
    }
    state[0], state[1], state[2], state[3] := f[A4], f[A5], f[A6], f[A7];
  }
}
