/** Bitwise AND with a mask, and powers of two, as the integer hash map uses them. */
module BitMask {

  /** Bitwise AND of a two's-complement integer with a non-negative mask. */
  function And(x: int, mask: nat): nat
    decreases mask
  {
    if mask == 0 then 0 else (x % 2) * (mask % 2) + 2 * And(x / 2, mask / 2)
  }

  predicate IsPow2(n: int)
    decreases n
  {
    n == 1 || (n >= 2 && n % 2 == 0 && IsPow2(n / 2))
  }

  lemma ProductSign(k: int, d: int)
    requires d > 0
    ensures k >= 1 ==> k * d >= d
    ensures k <= -1 ==> k * d <= -d
  {
  }

  /** Euclidean quotient and remainder are unique. */
  lemma RemainderUnique(d: int, q: int, r: int, q': int, r': int)
    requires d > 0 && 0 <= r < d && 0 <= r' < d
    requires q * d + r == q' * d + r'
    ensures r == r'
  {
    assert (q - q') * d == r' - r;
    ProductSign(q - q', d);
  }

  lemma ModDouble(x: int, c: int)
    requires c > 0
    ensures x % (2 * c) == x % 2 + 2 * ((x / 2) % c)
  {
    var q, r := (x / 2) / c, (x / 2) % c;
    var q', r' := x / (2 * c), x % (2 * c);
    assert q * (2 * c) == 2 * (q * c);
    RemainderUnique(2 * c, q, x % 2 + 2 * r, q', r');
  }

  /** Masking with a power of two less one is the remainder by that power of two, negative numbers included. */
  lemma {:induction false} AndIsMod(x: int, c: int)
    requires IsPow2(c)
    ensures And(x, c - 1) == x % c
    decreases c
  {
    if c != 1 {
      assert (c - 1) / 2 == c / 2 - 1 && (c - 1) % 2 == 1;
      AndIsMod(x / 2, c / 2);
      ModDouble(x, c / 2);
    }
  }

  lemma ModSmall(x: int, c: int)
    requires 0 <= x <= c && c > 0
    ensures x % c == if x == c then 0 else x
  {
  }

  /** Advancing an even offset by two under the mask of the doubled capacity steps one slot around the ring. */
  lemma NextOffset(slot: int, cap: int)
    requires IsPow2(cap) && 0 <= slot < cap
    ensures And(2 * slot + 2, 2 * cap - 1) == if slot + 1 == cap then 0 else 2 * (slot + 1)
  {
    hide IsPow2;
    assert (2 * cap - 1) / 2 == cap - 1 && (2 * cap - 1) % 2 == 1;
    assert (2 * slot + 2) / 2 == slot + 1 && (2 * slot + 2) % 2 == 0;
    AndIsMod(slot + 1, cap);
    ModSmall(slot + 1, cap);
  }
}
