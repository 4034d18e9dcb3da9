/** The capacity rounding of the integer hash map: `nextPowerOf2` and `arraySize`. */
module Capacity {
  import opened BitMask

  const MAX_UINT32 := 0xFFFF_FFFF

  function Pow2(n: nat): (p: nat)
    ensures p >= 1
  {
    if n == 0 then 1 else 2 * Pow2(n - 1)
  }

  /** Bitwise OR of non-negative integers. */
  function Or(a: nat, b: nat): nat
    decreases a + b
  {
    if a == 0 && b == 0 then 0
    else (if a % 2 == 1 || b % 2 == 1 then 1 else 0) + 2 * Or(a / 2, b / 2)
  }

  /** Right shift. */
  function Shr(v: nat, s: nat): nat
    decreases s
  {
    if s == 0 then v else Shr(v / 2, s - 1)
  }

  predicate Bit(v: nat, i: nat) {
    Shr(v, i) % 2 == 1
  }

  lemma OrHalf(a: nat, b: nat)
    ensures Or(a, b) / 2 == Or(a / 2, b / 2) && (Or(a, b) % 2 == 1 <==> a % 2 == 1 || b % 2 == 1)
  {
  }

  lemma BitNext(v: nat, i: nat)
    requires i > 0
    ensures Bit(v, i) <==> Bit(v / 2, i - 1)
  {
  }

  lemma {:induction false} OrBit(a: nat, b: nat, i: nat)
    ensures Bit(Or(a, b), i) <==> Bit(a, i) || Bit(b, i)
    decreases i
  {
    OrHalf(a, b);
    if i > 0 {
      hide Bit, Or;
      BitNext(Or(a, b), i);
      BitNext(a, i);
      BitNext(b, i);
      OrBit(a / 2, b / 2, i - 1);
    } else {
      hide Or;
    }
  }

  lemma {:induction false} ShrShr(v: nat, s: nat, i: nat)
    ensures Shr(Shr(v, s), i) == Shr(v, s + i)
    decreases s
  {
    if s > 0 {
      ShrShr(v / 2, s - 1, i);
    }
  }

  lemma {:induction false} OrBelow(a: nat, b: nat, n: nat)
    requires a < Pow2(n) && b < Pow2(n)
    ensures Or(a, b) < Pow2(n)
    decreases n
  {
    if n > 0 {
      OrBelow(a / 2, b / 2, n - 1);
    }
  }

  lemma {:induction false} ShrBelow(v: nat, s: nat)
    ensures Shr(v, s) <= v
    decreases s
  {
    if s > 0 {
      ShrBelow(v / 2, s - 1);
    }
  }

  /** The top `s` of the `n` low bits are set, and no higher bit is. */
  ghost predicate TopOnes(v: nat, n: nat, s: nat) {
    v < Pow2(n) && forall i: nat :: n - s <= i < n ==> Bit(v, i)
  }

  /** One smearing step doubles the run of ones below the highest bit. */
  lemma SmearStep(v: nat, n: nat, s: nat)
    requires TopOnes(v, n, s)
    ensures TopOnes(Or(v, Shr(v, s)), n, 2 * s)
  {
    ShrBelow(v, s);
    OrBelow(v, Shr(v, s), n);
    forall i: nat | n - 2 * s <= i < n ensures Bit(Or(v, Shr(v, s)), i) {
      OrBit(v, Shr(v, s), i);
      ShrShr(v, s, i);
      assert i < n - s ==> Bit(v, s + i);
    }
  }

  lemma {:induction false} AllOnes(v: nat, n: nat)
    requires v < Pow2(n) && forall i: nat :: i < n ==> Bit(v, i)
    ensures v == Pow2(n) - 1
    decreases n
  {
    if n > 0 {
      assert Bit(v, 0);
      forall i: nat | i < n - 1 ensures Bit(v / 2, i) {
        assert Bit(v, i + 1);
      }
      AllOnes(v / 2, n - 1);
    }
  }

  /** Every positive number has a highest bit. */
  lemma {:induction false} HighestBit(v: nat) returns (n: nat)
    requires v >= 1
    ensures n >= 1 && Pow2(n - 1) <= v < Pow2(n) && TopOnes(v, n, 1)
    decreases v
  {
    if v == 1 {
      n := 1;
      assert Bit(1, 0);
    } else {
      n := HighestBit(v / 2);
      assert Bit(v / 2, n - 1);
      assert Bit(v, n);
      n := n + 1;
    }
  }

  lemma {:induction false} Pow2Mono(a: nat, b: nat)
    requires a < b
    ensures 2 * Pow2(a) <= Pow2(b)
    decreases b
  {
    if a < b - 1 {
      Pow2Mono(a, b - 1);
    }
  }

  lemma {:induction false} Pow2IsPow2(n: nat)
    ensures IsPow2(Pow2(n))
  {
    if n > 0 {
      Pow2IsPow2(n - 1);
    }
  }

  /** `x |= x>>1; …; x |= x>>16` on a 32-bit word. */
  function Smear(v: nat): nat {
    var b := Or(v, Shr(v, 1));
    var c := Or(b, Shr(b, 2));
    var d := Or(c, Shr(c, 4));
    var e := Or(d, Shr(d, 8));
    Or(e, Shr(e, 16))
  }

  lemma SmearIsOnes(v: nat, n: nat)
    requires n <= 32 && TopOnes(v, n, 1)
    ensures Smear(v) == Pow2(n) - 1
  {
    hide TopOnes;
    var b := Or(v, Shr(v, 1));
    var c := Or(b, Shr(b, 2));
    var d := Or(c, Shr(c, 4));
    var e := Or(d, Shr(d, 8));
    var f := Or(e, Shr(e, 16));
    SmearStep(v, n, 1);
    SmearStep(b, n, 2);
    SmearStep(c, n, 4);
    SmearStep(d, n, 8);
    SmearStep(e, n, 16);
    TopOnesAll(f, n);
  }

  lemma TopOnesAll(v: nat, n: nat)
    requires n <= 32 && TopOnes(v, n, 32)
    ensures v == Pow2(n) - 1
  {
    AllOnes(v, n);
  }

  /** `nextPowerOf2` on a 32-bit word, with the wrap-around of the final increment. */
  function NextPowerOf2(x: nat): nat
    requires x <= MAX_UINT32
  {
    if x == MAX_UINT32 then x
    else if x == 0 then 1
    else (Smear(x - 1) + 1) % 0x1_0000_0000
  }

  lemma Pow2Values()
    ensures Pow2(31) == 0x8000_0000 && Pow2(32) == 0x1_0000_0000
  {
    assert Pow2(8) == 256;
    assert Pow2(16) == 65536;
    assert Pow2(24) == 16777216;
  }

  lemma WordBits(v: nat, n: nat)
    requires n >= 1 && Pow2(n - 1) <= v < Pow2(n) && v < 0x1_0000_0000
    ensures n <= 32
    ensures v < 0x8000_0000 <==> n <= 31
    ensures n <= 31 ==> Pow2(n) <= 0x8000_0000
  {
    hide Pow2;
    Pow2Values();
    if n > 33 {
      Pow2Mono(32, n - 1);
    }
    if n < 31 {
      Pow2Mono(n, 31);
    }
  }

  /** Smearing and incrementing gives the power of two just above `v`. */
  lemma SmearPlusOne(v: nat) returns (n: nat)
    requires v < 0x1_0000_0000
    ensures Smear(v) + 1 == Pow2(n) && v < Pow2(n) <= 2 * v + 1
    ensures if v < 0x8000_0000 then Pow2(n) <= 0x8000_0000 else Pow2(n) == 0x1_0000_0000
  {
    hide Smear, TopOnes;
    if v == 0 {
      n := 0;
      SmearZero();
    } else {
      n := HighestBit(v);
      assert Pow2(n) == 2 * Pow2(n - 1);
      hide Pow2;
      Pow2Values();
      WordBits(v, n);
      SmearIsOnes(v, n);
    }
  }

  lemma SmearZero()
    ensures Smear(0) == 0
  {
    assert TopOnes(0, 0, 1);
    hide TopOnes, Smear;
    SmearIsOnes(0, 0);
  }

  /** The result is the least power of two not below `x` up to 2^31; above that the increment wraps to 0. */
  lemma NextPowerOf2Spec(x: nat)
    requires x <= MAX_UINT32
    ensures 1 <= x <= 0x8000_0000 ==> IsPow2(NextPowerOf2(x)) && x <= NextPowerOf2(x) < 2 * x
    ensures 0x8000_0000 < x < MAX_UINT32 ==> NextPowerOf2(x) == 0
    ensures x == 0 ==> NextPowerOf2(x) == 1
    ensures x == MAX_UINT32 ==> NextPowerOf2(x) == x
  {
    hide Smear, IsPow2;
    if 0 < x < MAX_UINT32 {
      var n := SmearPlusOne(x - 1);
      Pow2IsPow2(n);
    }
  }

  function Ceil(r: real): int {
    -((-r).Floor)
  }

  /** The least integer not below. */
  lemma CeilIs(r: real)
    ensures (Ceil(r) - 1) as real < r <= Ceil(r) as real
  {
  }

  /** `arraySize` once the requested number of slots has been rounded up to an unsigned 32-bit integer. */
  function ArraySize(slots: nat): int
    requires slots <= MAX_UINT32
  {
    var s := NextPowerOf2(slots);
    if s < 2 then 2 else s
  }

  /**
    The capacity is a power of two exactly when the request is not the maximal 32-bit word,
    and it covers the request exactly when the request is at most 2^31 or that maximal word.
  */
  lemma ArraySizeSpec(slots: nat)
    requires 1 <= slots <= MAX_UINT32
    ensures ArraySize(slots) >= 2
    ensures IsPow2(ArraySize(slots)) <==> slots != MAX_UINT32
    ensures slots <= ArraySize(slots) <==> slots <= 0x8000_0000 || slots == MAX_UINT32
    ensures slots <= 0x8000_0000 ==> ArraySize(slots) == 2 || ArraySize(slots) < 2 * slots
  {
    if slots != MAX_UINT32 {
      NextPowerOf2Spec(slots);
      assert IsPow2(2);
    }
  }
}
