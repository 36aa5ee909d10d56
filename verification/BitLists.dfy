/** Numbers as lists of bits, least significant first. */
module BitLists {
  import opened Arithmetic

  type Bits = seq<bool>

  function Pow2(k: nat): (r: int)
    ensures r > 0
  {
    if k == 0 then 1 else 2 * Pow2(k - 1)
  }

  /** The number a bit list stands for. */
  function ToNat(x: Bits): (n: nat)
    ensures n < Pow2(|x|)
  {
    if x == [] then 0 else (if x[0] then 1 else 0) + 2 * ToNat(x[1..])
  }

  /** The low k bits of a number. */
  function OfNat(n: nat, k: nat): (x: Bits)
    ensures |x| == k
  {
    if k == 0 then [] else [n % 2 == 1] + OfNat(n / 2, k - 1)
  }

  lemma {:induction false} NatRoundTrip(n: nat, k: nat)
    requires n < Pow2(k)
    ensures ToNat(OfNat(n, k)) == n
  {
    if k > 0 {
      NatRoundTrip(n / 2, k - 1);
    }
  }

  lemma {:induction false} BitsRoundTrip(x: Bits)
    ensures OfNat(ToNat(x), |x|) == x
  {
    if x != [] {
      BitsRoundTrip(x[1..]);
      assert x == [x[0]] + x[1..];
    }
  }

  /** A list of bits in two parts. */
  lemma {:induction false} ConcatValue(x: Bits, y: Bits)
    ensures ToNat(x + y) == ToNat(x) + Pow2(|x|) * ToNat(y)
    decreases |x|
  {
    if x == [] {
      assert x + y == y;
    } else {
      ConcatValue(x[1..], y);
      assert (x + y)[1..] == x[1..] + y && (x + y)[0] == x[0];
      Doubled(Pow2(|x| - 1), ToNat(y));
    }
  }

  lemma Doubled(p: int, n: int)
    ensures (2 * p) * n == 2 * (p * n)
  {
  }

  /** The low bits are the remainder. */
  lemma LowBits(x: Bits, k: nat)
    requires k <= |x|
    ensures ToNat(x[..k]) == ToNat(x) % Pow2(k)
  {
    var low, high := x[..k], x[k..];
    assert ToNat(low) < Pow2(k);
    hide ToNat, Pow2;
    assert x == low + high;
    ConcatValue(low, high);
    ModOf(ToNat(high), ToNat(low), Pow2(k));
  }

  function Zeros(k: nat): (z: Bits)
    ensures |z| == k
  {
    seq(k, _ => false)
  }

  lemma {:induction false} ZerosValue(k: nat)
    ensures ToNat(Zeros(k)) == 0
  {
    if k > 0 {
      ZerosValue(k - 1);
      assert Zeros(k)[1..] == Zeros(k - 1);
    }
  }

  function Ones(k: nat): (z: Bits)
    ensures |z| == k
  {
    seq(k, _ => true)
  }

  lemma {:induction false} OnesValue(k: nat)
    ensures ToNat(Ones(k)) == Pow2(k) - 1
  {
    if k > 0 {
      OnesValue(k - 1);
      assert Ones(k)[1..] == Ones(k - 1);
    }
  }
}
