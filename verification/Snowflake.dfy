/** Identifiers made of a time, a node and a sequence number
    (crates/utils/src/snowflake.rs): 43 bits of milliseconds, 9 bits of node, 12 bits of
    sequence in a 64-bit word. */
module Snowflake {
  import opened BitLists
  import opened Common

  const SEQUENCES: int := 4096
  const NODES: int := 512
  const SLOT: int := 2097152
  const MILLIS: int := 0x800_0000_0000

  /** Clock readings are nanoseconds since the epoch of the generator. */
  type Nanos = nat

  /** Whole milliseconds; one is a million nanoseconds. */
  function Millis(t: Nanos): (m: nat)
    ensures m * 1_000_000 <= t < (m + 1) * 1_000_000
  {
    t / 1_000_000
  }

  // ---------------------------------------------------------------- the layout

  /** A time in the upper bits; what does not fit is shifted out. */
  function Shifted(millis: nat): (r: U64)
    ensures r % SLOT == 0 && r / SLOT == millis % MILLIS
  {
    ShiftBound(millis);
    millis % MOD64 * SLOT % MOD64
  }

  lemma ShiftBound(millis: nat)
    ensures millis % MOD64 * SLOT % MOD64 == millis % MILLIS * SLOT
    ensures (millis % MILLIS * SLOT) / SLOT == millis % MILLIS && (millis % MILLIS * SLOT) % SLOT == 0
  {
    var m := millis % MOD64;
    assert MOD64 == MILLIS * SLOT && MOD64 % MILLIS == 0;
    var q := m / MILLIS;
    assert m * SLOT == MOD64 * q + m % MILLIS * SLOT;
    assert millis == MOD64 * (millis / MOD64) + m;
    assert m % MILLIS == millis % MILLIS;
  }

  function Id(millis: nat, node: U64, sequence: U64): (r: U64)
    ensures r % SEQUENCES == sequence % SEQUENCES
    ensures r / SEQUENCES % NODES == node % NODES
    ensures r / SLOT == millis % MILLIS
  {
    ShiftBound(millis);
    Compose(millis % MILLIS, node % NODES, sequence % SEQUENCES);
    Shifted(millis) + node % NODES * SEQUENCES + sequence % SEQUENCES
  }

  lemma Compose(high: nat, middle: nat, low: nat)
    requires high < MILLIS && middle < NODES && low < SEQUENCES
    ensures var r := high * SLOT + middle * SEQUENCES + low;
            && r < MOD64 && r % SEQUENCES == low && r / SEQUENCES % NODES == middle && r / SLOT == high
  {
    var r := high * SLOT + middle * SEQUENCES + low;
    assert r == SEQUENCES * (high * NODES + middle) + low;
    assert r / SEQUENCES == high * NODES + middle;
  }

  // The same word as the source builds it, bit by bit.

  type Word = w: Bits | |w| == 64 witness seq(64, _ => false)

  function WordOf(n: U64): Word { OfNat(n, 64) }

  function And(x: Word, y: Word): Word { seq(64, i requires 0 <= i < 64 => x[i] && y[i]) }
  function Or(x: Word, y: Word): Word { seq(64, i requires 0 <= i < 64 => x[i] || y[i]) }

  /** Shifting left drops the upper bits. */
  function ShiftLeft(x: Word, k: nat): Word
    requires k <= 64
  {
    Zeros(k) + x[..64 - k]
  }

  /** The mask of a field of k bits: 2^k - 1. */
  function Mask(k: nat): Word
    requires k <= 64
  {
    MaskValue(k);
    Powers();
    WordOf(Pow2(k) - 1)
  }

  lemma MaskValue(k: nat)
    requires k <= 64
    ensures ToNat(Ones(k) + Zeros(64 - k)) == Pow2(k) - 1 < Pow2(64)
  {
    hide ToNat, Pow2, Ones, Zeros;
    ConcatValue(Ones(k), Zeros(64 - k));
    OnesValue(k);
    ZerosValue(64 - k);
    assert Pow2(k) * 0 == 0;
  }

  /** Its k low bits are set and no other. */
  lemma MaskBits(k: nat)
    requires k <= 64
    ensures Mask(k) == Ones(k) + Zeros(64 - k)
  {
    hide ToNat, Pow2, Ones, Zeros;
    MaskValue(k);
    BitsRoundTrip(Ones(k) + Zeros(64 - k));
  }

  function IdWord(elapsed: Word, node: Word, sequence: Word): Word {
    Or(Or(ShiftLeft(elapsed, 21), ShiftLeft(And(node, Mask(9)), 12)), And(sequence, Mask(12)))
  }

  /** The three fields do not overlap: they lie side by side. */
  lemma FieldsSideBySide(elapsed: Word, node: Word, sequence: Word)
    ensures IdWord(elapsed, node, sequence) == sequence[..12] + (node[..9] + elapsed[..43])
  {
    hide Mask;
    MaskBits(9);
    MaskBits(12);
    var w := IdWord(elapsed, node, sequence);
    var r := sequence[..12] + (node[..9] + elapsed[..43]);
    forall i | 0 <= i < 64
      ensures w[i] == r[i]
    {
      if i < 12 {
        assert r[i] == sequence[i];
      } else if i < 21 {
        assert r[i] == node[i - 12];
      } else {
        assert r[i] == elapsed[i - 21];
      }
    }
  }

  lemma Powers()
    ensures Pow2(9) == NODES && Pow2(12) == SEQUENCES && Pow2(43) == MILLIS && Pow2(64) == MOD64
  {
    assert Pow2(4) == 16 && Pow2(8) == 256;
    assert Pow2(16) == 0x1_0000;
    assert Pow2(24) == 0x100_0000;
    assert Pow2(32) == 0x1_0000_0000;
    assert Pow2(40) == 0x100_0000_0000;
    assert Pow2(48) == 0x1_0000_0000_0000;
    assert Pow2(56) == 0x100_0000_0000_0000;
  }

  lemma FieldValue(n: U64, k: nat)
    requires k <= 64
    ensures ToNat(WordOf(n)[..k]) == n % Pow2(k)
  {
    Powers();
    NatRoundTrip(n, 64);
    LowBits(WordOf(n), k);
  }

  /** Shifts, masks and `or` on machine words build the identifier. */
  lemma WordIsId(millis: nat, node: U64, sequence: U64)
    ensures ToNat(IdWord(WordOf(millis % MOD64), WordOf(node), WordOf(sequence))) == Id(millis, node, sequence)
  {
    hide IdWord, WordOf, ToNat, Pow2, Id;
    var e, n, q := WordOf(millis % MOD64), WordOf(node), WordOf(sequence);
    FieldsSideBySide(e, n, q);
    ThreeFields(q[..12], n[..9], e[..43]);
    FieldValue(millis % MOD64, 43);
    FieldValue(node, 9);
    FieldValue(sequence, 12);
    Powers();
    IdValue(millis, node, sequence);
  }

  lemma ThreeFields(low: Bits, middle: Bits, high: Bits)
    requires |low| == 12 && |middle| == 9
    ensures ToNat(low + (middle + high)) == ToNat(high) * SLOT + ToNat(middle) * SEQUENCES + ToNat(low)
  {
    hide ToNat, Pow2;
    ConcatValue(low, middle + high);
    ConcatValue(middle, high);
    Powers();
  }

  lemma IdValue(millis: nat, node: U64, sequence: U64)
    ensures Id(millis, node, sequence) == millis % MOD64 % MILLIS * SLOT + node % NODES * SEQUENCES + sequence % SEQUENCES
  {
    ShiftBound(millis);
    assert millis % MOD64 % MILLIS == millis % MILLIS;
  }

  /** Equal identifiers agree in every field. */
  lemma IdDetermines(m: nat, node: U64, s: U64, m': nat, node': U64, s': U64)
    requires Id(m, node, s) == Id(m', node', s')
    ensures m % MILLIS == m' % MILLIS && node % NODES == node' % NODES && s % SEQUENCES == s' % SEQUENCES
  {
  }

  lemma SlotBounds(x: nat, m: nat)
    requires x / SLOT == m
    ensures SLOT * m <= x < SLOT * m + SLOT
    ensures x % SLOT == 0 ==> x == SLOT * m
  {
  }

  lemma Fits(m: nat)
    requires m < MILLIS
    ensures m % MILLIS == m
  {
  }

  /** Identifiers of an earlier millisecond are smaller, as long as the times fit. */
  lemma OrderedByTime(m: nat, node: U64, s: U64, m': nat, node': U64, s': U64)
    requires m < m' < MILLIS
    ensures Id(m, node, s) < Id(m', node', s')
  {
    hide Id;
    Fits(m);
    Fits(m');
    SlotBounds(Id(m, node, s), m);
    SlotBounds(Id(m', node', s'), m');
  }

  /** An identifier of the past separates what was generated before its millisecond from
      what was generated in it or later. */
  lemma PastSeparates(m: nat, node: U64, s: U64, past: nat)
    requires m < MILLIS && past < MILLIS
    ensures Id(m, node, s) < Shifted(past) <==> m < past
  {
    hide Id, Shifted;
    Fits(m);
    Fits(past);
    SlotBounds(Id(m, node, s), m);
    SlotBounds(Shifted(past), past);
  }

  // ---------------------------------------------------------------- runs of one generator

  /** The identifiers made from a sequence of clock readings; a clock before the epoch
      gives none and leaves the sequence number alone. */
  function Calls(clock: seq<Option<Nanos>>): nat {
    if clock == [] then 0 else Calls(clock[..|clock| - 1]) + (if clock[|clock| - 1].Some? then 1 else 0)
  }

  function Generated(node: U64, clock: seq<Option<Nanos>>, i: nat): Option<U64>
    requires i < |clock|
  {
    match clock[i]
    case None => None
    case Some(t) => Some(Id(Millis(t), node, Calls(clock[..i]) % MOD64))
  }

  lemma {:induction false} CallsMonotone(clock: seq<Option<Nanos>>, i: nat, j: nat)
    requires i <= j <= |clock|
    ensures Calls(clock[..i]) <= Calls(clock[..j])
    decreases j
  {
    if i < j {
      CallsMonotone(clock, i, j - 1);
      assert clock[..j][..j - 1] == clock[..j - 1];
    }
  }

  lemma CallsGrow(clock: seq<Option<Nanos>>, i: nat, j: nat)
    requires i < j < |clock| && clock[i].Some?
    ensures Calls(clock[..i]) < Calls(clock[..j])
  {
    assert clock[..i + 1][..i] == clock[..i];
    CallsMonotone(clock, i + 1, j);
  }

  /** Whatever the clock says, two equal identifiers of one generator are a positive multiple
      of 4096 calls apart. */
  lemma EqualIdsFarApart(node: U64, clock: seq<Option<Nanos>>, i: nat, j: nat)
    requires i < j < |clock| && clock[i].Some? && Generated(node, clock, i) == Generated(node, clock, j)
    ensures var apart := Calls(clock[..j]) - Calls(clock[..i]); apart > 0 && apart % SEQUENCES == 0
    ensures Millis(clock[i].value) % MILLIS == Millis(clock[j].value) % MILLIS
  {
    CallsGrow(clock, i, j);
    var a, b := Calls(clock[..i]), Calls(clock[..j]);
    IdDetermines(Millis(clock[i].value), node, a % MOD64, Millis(clock[j].value), node, b % MOD64);
    WrapKeepsSequence(a);
    WrapKeepsSequence(b);
    SameRest(a, b);
  }

  lemma WrapKeepsSequence(n: nat)
    ensures n % MOD64 % SEQUENCES == n % SEQUENCES
  {
  }

  lemma SameRest(a: nat, b: nat)
    requires a <= b && a % SEQUENCES == b % SEQUENCES
    ensures (b - a) % SEQUENCES == 0
  {
  }

  /** Exactly when two calls of one generator give the same identifier. */
  lemma RepeatsIff(node: U64, clock: seq<Option<Nanos>>, i: nat, j: nat)
    requires i < j < |clock| && clock[i].Some? && clock[j].Some?
    ensures Generated(node, clock, i) == Generated(node, clock, j) <==>
            && (Calls(clock[..j]) - Calls(clock[..i])) % SEQUENCES == 0
            && Millis(clock[i].value) % MILLIS == Millis(clock[j].value) % MILLIS
  {
    if Generated(node, clock, i) == Generated(node, clock, j) {
      EqualIdsFarApart(node, clock, i, j);
    } else {
      var a, b := Calls(clock[..i]), Calls(clock[..j]);
      CallsGrow(clock, i, j);
      WrapKeepsSequence(a);
      WrapKeepsSequence(b);
      SameRestBack(a, b);
      hide Id;
      SameFieldsSameId(Millis(clock[i].value), Millis(clock[j].value), node, a % MOD64, b % MOD64);
    }
  }

  lemma SameRestBack(a: nat, b: nat)
    ensures (b - a) % SEQUENCES == 0 ==> a % SEQUENCES == b % SEQUENCES
  {
  }

  lemma SameFieldsSameId(m: nat, m': nat, node: U64, s: U64, s': U64)
    ensures m % MILLIS == m' % MILLIS && s % SEQUENCES == s' % SEQUENCES ==> Id(m, node, s) == Id(m', node, s')
  {
    ShiftBound(m);
    ShiftBound(m');
  }

  // ---------------------------------------------------------------- calls per millisecond

  /** How many of the calls fall into a millisecond. */
  function CallsIn(clock: seq<Option<Nanos>>, m: nat): nat {
    if clock == [] then 0
    else CallsIn(clock[..|clock| - 1], m) + (if In(clock[|clock| - 1], m) then 1 else 0)
  }

  predicate In(t: Option<Nanos>, m: nat) {
    t.Some? && Millis(t.value) == m
  }

  /** The clock never runs backwards and its times fit into the identifier. */
  ghost predicate Steady(clock: seq<Option<Nanos>>) {
    && (forall i, j :: 0 <= i < j < |clock| && clock[i].Some? && clock[j].Some? ==> clock[i].value <= clock[j].value)
    && (forall i :: 0 <= i < |clock| && clock[i].Some? ==> Millis(clock[i].value) < MILLIS)
  }

  lemma TakeNext<T>(s: seq<T>, n: nat)
    requires 0 < n <= |s|
    ensures s[..n][..n - 1] == s[..n - 1] && s[..n][n - 1] == s[n - 1]
  {
  }

  lemma {:induction false} CallsInMonotone(clock: seq<Option<Nanos>>, m: nat, i: nat, j: nat)
    requires i <= j <= |clock|
    ensures CallsIn(clock[..i], m) <= CallsIn(clock[..j], m)
    decreases j
  {
    if i < j {
      CallsInMonotone(clock, m, i, j - 1);
      TakeNext(clock, j);
    }
  }

  /** While all calls fall into one millisecond, counting calls is counting its calls. */
  lemma {:induction false} SameCount(clock: seq<Option<Nanos>>, m: nat, i: nat, j: nat)
    requires i <= j <= |clock| && forall k :: i <= k < j && clock[k].Some? ==> In(clock[k], m)
    ensures Calls(clock[..j]) - Calls(clock[..i]) == CallsIn(clock[..j], m) - CallsIn(clock[..i], m)
    decreases j
  {
    if i < j {
      SameCount(clock, m, i, j - 1);
      TakeNext(clock, j);
    }
  }

  /** Between two calls of one millisecond a steady clock shows only that millisecond. */
  lemma Between(clock: seq<Option<Nanos>>, m: nat, i: nat, j: nat)
    requires Steady(clock) && i < j < |clock| && In(clock[i], m) && In(clock[j], m)
    ensures Calls(clock[..j]) - Calls(clock[..i]) == CallsIn(clock[..j], m) - CallsIn(clock[..i], m)
  {
    forall k | i <= k < j && clock[k].Some?
      ensures In(clock[k], m)
    {
      assert clock[i].value <= clock[k].value <= clock[j].value;
    }
    SameCount(clock, m, i, j);
  }

  /** The call of a millisecond that has n earlier ones. */
  lemma {:induction false} NthCall(clock: seq<Option<Nanos>>, m: nat, n: nat) returns (j: nat)
    requires n < CallsIn(clock, m)
    ensures j < |clock| && In(clock[j], m) && CallsIn(clock[..j], m) == n
    decreases |clock|
  {
    var last := |clock| - 1;
    if n < CallsIn(clock[..last], m) {
      j := NthCall(clock[..last], m, n);
      assert clock[..last][..j] == clock[..j];
    } else {
      j := last;
    }
  }

  ghost predicate AllDiffer(node: U64, clock: seq<Option<Nanos>>) {
    forall i, j :: 0 <= i < j < |clock| && clock[i].Some? && clock[j].Some? ==>
      Generated(node, clock, i) != Generated(node, clock, j)
  }

  /** With a steady clock all identifiers differ if and only if no millisecond sees more than
      4096 calls. */
  lemma AllDifferIff(node: U64, clock: seq<Option<Nanos>>)
    requires Steady(clock)
    ensures AllDiffer(node, clock) <==> forall m :: CallsIn(clock, m) <= SEQUENCES
  {
    hide Generated, Millis, CallsIn, Calls;
    if m :| CallsIn(clock, m) > SEQUENCES {
      CrowdedRepeats(node, clock, m);
    } else {
      forall i, j | 0 <= i < j < |clock| && clock[i].Some? && clock[j].Some?
        ensures Generated(node, clock, i) != Generated(node, clock, j)
      {
        if Generated(node, clock, i) == Generated(node, clock, j) {
          RepeatMeansCrowded(node, clock, i, j);
        }
      }
    }
  }

  lemma CrowdedRepeats(node: U64, clock: seq<Option<Nanos>>, m: nat)
    requires Steady(clock) && CallsIn(clock, m) > SEQUENCES
    ensures !AllDiffer(node, clock)
  {
    hide Generated, CallsIn, Calls;
    var i := NthCall(clock, m, 0);
    var j := NthCall(clock, m, SEQUENCES);
    if j <= i {
      CallsInMonotone(clock, m, j, i);
    }
    Between(clock, m, i, j);
    RepeatsIff(node, clock, i, j);
  }

  lemma RepeatMeansCrowded(node: U64, clock: seq<Option<Nanos>>, i: nat, j: nat)
    requires Steady(clock) && i < j < |clock| && clock[i].Some? && clock[j].Some?
    requires Generated(node, clock, i) == Generated(node, clock, j)
    ensures CallsIn(clock, Millis(clock[i].value)) > SEQUENCES
  {
    hide Generated, Calls, CallsIn, Millis;
    EqualIdsFarApart(node, clock, i, j);
    var m := Millis(clock[i].value);
    Fits(m);
    Fits(Millis(clock[j].value));
    Between(clock, m, i, j);
    AtLeastOneRound(Calls(clock[..j]) - Calls(clock[..i]));
    CountNext(clock, m, j);
    CallsInMonotone(clock, m, j + 1, |clock|);
    assert clock[..|clock|] == clock;
  }

  lemma CountNext(clock: seq<Option<Nanos>>, m: nat, j: nat)
    requires j < |clock| && In(clock[j], m)
    ensures CallsIn(clock[..j + 1], m) == CallsIn(clock[..j], m) + 1
  {
    TakeNext(clock, j + 1);
  }

  lemma AtLeastOneRound(n: int)
    requires n > 0 && n % SEQUENCES == 0
    ensures n >= SEQUENCES
  {
  }

  /** A clock that steps back repeats an identifier although no millisecond sees more than
      4095 calls: one call, 4095 calls a millisecond later, one more call at the first time. */
  lemma BackwardsClockRepeats(node: U64) returns (clock: seq<Option<Nanos>>)
    ensures |clock| == SEQUENCES + 1 && Generated(node, clock, 0) == Generated(node, clock, SEQUENCES)
    ensures forall i :: 0 <= i < |clock| ==> clock[i].Some?
    ensures forall m :: CallsIn(clock, m) < SEQUENCES
  {
    var first, later := [Some(0)], seq(SEQUENCES - 1, _ => Some(1_000_000));
    clock := first + later + first;
    AllCalls(clock, 0);
    AllCalls(clock, SEQUENCES);
    RepeatsIff(node, clock, 0, SEQUENCES);
    forall m: nat
      ensures CallsIn(clock, m) < SEQUENCES
    {
      CallsInConcat(first + later, first, m);
      CallsInConcat(first, later, m);
      SameTime(later, 1_000_000, m);
      SameTime(first, 0, m);
    }
  }

  lemma {:induction false} CallsInConcat(a: seq<Option<Nanos>>, b: seq<Option<Nanos>>, m: nat)
    ensures CallsIn(a + b, m) == CallsIn(a, m) + CallsIn(b, m)
    decreases |b|
  {
    if b == [] {
      assert a + b == a;
    } else {
      var n := |b| - 1;
      CallsInConcat(a, b[..n], m);
      assert (a + b)[..|a + b| - 1] == a + b[..n];
    }
  }

  lemma {:induction false} SameTime(clock: seq<Option<Nanos>>, t: Nanos, m: nat)
    requires forall i :: 0 <= i < |clock| ==> clock[i] == Some(t)
    ensures CallsIn(clock, m) == if Millis(t) == m then |clock| else 0
    decreases |clock|
  {
    if clock != [] {
      SameTime(clock[..|clock| - 1], t, m);
    }
  }

  /** Exactly 4096 calls in one millisecond is the limit: the next one repeats. */
  lemma LimitIsTight(node: U64, t: Nanos)
    ensures var clock := seq(SEQUENCES + 1, _ => Some(t)); Generated(node, clock, 0) == Generated(node, clock, SEQUENCES)
  {
    var clock: seq<Option<Nanos>> := seq(SEQUENCES + 1, _ => Some(t));
    AllCalls(clock, SEQUENCES);
    AllCalls(clock, 0);
  }

  lemma {:induction false} AllCalls(clock: seq<Option<Nanos>>, n: nat)
    requires n <= |clock| && forall i :: 0 <= i < |clock| ==> clock[i].Some?
    ensures Calls(clock[..n]) == n
  {
    if n > 0 {
      AllCalls(clock, n - 1);
      assert clock[..n][..n - 1] == clock[..n - 1];
    }
  }

  // ---------------------------------------------------------------- the generator

  class SnowflakeIdGenerator {
    const nodeId: U64
    var sequence: U64
    ghost var clock: seq<Option<Nanos>>

    ghost predicate Valid() reads this {
      sequence == Calls(clock) % MOD64
    }

    constructor (nodeId: U64)
      ensures Valid() && this.nodeId == nodeId && clock == []
    {
      this.nodeId := nodeId;
      sequence, clock := 0, [];
    }

    method Generate(now: Option<Nanos>) returns (id: Option<U64>)
      requires Valid()
      modifies this
      ensures Valid() && clock == old(clock) + [now] && id == Generated(nodeId, clock, |old(clock)|)
    {
      clock := clock + [now];
      assert clock[..|clock| - 1] == old(clock);
      match now
      case None =>
        id := None;
      case Some(t) =>
        var s := sequence;
        sequence := (sequence + 1) % MOD64;
        CountOne(Calls(old(clock)));
        id := Some(Id(Millis(t), nodeId, s));
    }

    /** The smallest identifier of the millisecond that lies `period` back, if there is one. */
    method PastId(now: Option<Nanos>, period: Nanos) returns (id: Option<U64>)
      ensures id.Some? <==> now.Some? && period <= now.value
      ensures id.Some? ==> id.value % SLOT == 0 && id.value / SLOT == Millis(now.value - period) % MILLIS
      ensures id.Some? && Millis(now.value) < MILLIS ==>
                forall t: Nanos, node: U64, s: U64 :: Millis(t) < MILLIS ==>
                  (Id(Millis(t), node, s) < id.value <==> Millis(t) < Millis(now.value - period))
    {
      if now == None || now.value < period {
        return None;
      }
      var past := now.value - period;
      id := Some(Shifted(Millis(past)));
      if Millis(now.value) < MILLIS {
        forall t: Nanos, node: U64, s: U64 | Millis(t) < MILLIS
          ensures Id(Millis(t), node, s) < id.value <==> Millis(t) < Millis(past)
        {
          PastSeparates(Millis(t), node, s, Millis(past));
        }
      }
    }
  }

  lemma CountOne(n: nat)
    ensures (n % MOD64 + 1) % MOD64 == (n + 1) % MOD64
  {
  }
}
