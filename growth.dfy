/**
 * Machine-integer bounds and the capacity-growth rule of the vector.
 *
 * The vector grows only when it is full, to capacity 1 from an empty buffer
 * and to twice its capacity otherwise. This module states that rule once and
 * proves what it implies for a vector built by pushes alone: its capacity is
 * always the smallest power of two that holds its elements, and it reallocates
 * exactly on the pushes that find a power-of-two length.
 */
module Growth {

  /** `isize::MAX` on a 64-bit target: the largest allocation, in bytes. */
  const ISIZE_MAX: int := 0x7FFF_FFFF_FFFF_FFFF

  /** `usize::MAX` on a 64-bit target. */
  const USIZE_MAX: int := 0xFFFF_FFFF_FFFF_FFFF

  /** Rust's `usize`: any arithmetic that leaves this range must be proved not to happen. */
  type usize = x: int | 0 <= x <= USIZE_MAX

  /** The capacity `grow` asks the allocator for. */
  function NewCap(cap: nat): nat
  {
    if cap == 0 then 1 else 2 * cap
  }

  /** The capacity after one successful `push` onto a vector of length `len` and capacity `cap`. */
  function CapAfterPush(len: nat, cap: nat): nat
  {
    if len == cap then NewCap(cap) else cap
  }

  /** The capacity of a vector built from empty by `n` successful pushes. */
  function CapAfterPushes(n: nat): nat
  {
    if n == 0 then 0 else CapAfterPush(n - 1, CapAfterPushes(n - 1))
  }

  predicate IsPow2(x: nat)
  {
    x == 1 || (x > 1 && x % 2 == 0 && IsPow2(x / 2))
  }

  /**
   * The layout bound keeps the capacity itself below `isize::MAX`, so doubling
   * it never overflows a `usize` (the justification the source gives for `2 * self.cap`).
   */
  lemma CapWithinIsize(cap: nat, elemSize: nat)
    requires 0 < elemSize && cap * elemSize <= ISIZE_MAX
    ensures cap <= ISIZE_MAX
    ensures NewCap(cap) <= USIZE_MAX
  {
    assert cap * 1 <= cap * elemSize;
  }

  /** Of two powers of two, the smaller is at most half the larger. */
  lemma {:induction false} Pow2Gap(p: nat, c: nat)
    requires IsPow2(p) && IsPow2(c) && p < c
    ensures 2 * p <= c
  {
    if p != 1 {
      Pow2Gap(p / 2, c / 2);
    }
  }

  /**
   * After `n >= 1` pushes from empty the capacity is the smallest power of two
   * that is at least `n` (1 for one push), and it never exceeds `2 * n - 1`.
   */
  lemma {:induction false} CapAfterPushesIsSmallestPow2(n: nat)
    requires n >= 1
    ensures IsPow2(CapAfterPushes(n))
    ensures n <= CapAfterPushes(n) < 2 * n
    ensures forall p :: IsPow2(p) && n <= p ==> CapAfterPushes(n) <= p
  {
    var c := CapAfterPushes(n);
    if n > 1 {
      CapAfterPushesIsSmallestPow2(n - 1);
      var prev := CapAfterPushes(n - 1);
      if prev == n - 1 {
        assert c == 2 * prev;
        assert (2 * prev) / 2 == prev;
      }
    }
    forall p | IsPow2(p) && n <= p
      ensures c <= p
    {
      if p < c {
        Pow2Gap(p, c);
      }
    }
  }

  /** The length never exceeds the capacity after any number of pushes from empty. */
  lemma {:induction false} LenWithinCap(n: nat)
    ensures n <= CapAfterPushes(n)
  {
    if n >= 1 {
      CapAfterPushesIsSmallestPow2(n);
    }
  }

  /**
   * The `n`-th push (counting from 1) allocates or reallocates exactly when it
   * finds the vector full, which happens exactly for the first push and for
   * the pushes that find a power-of-two length (pushes 1, 2, 3, 5, 9, ...).
   */
  lemma {:induction false} GrowsExactlyAtPowersOfTwo(n: nat)
    requires n >= 1
    ensures CapAfterPushes(n - 1) == n - 1 <==> (n == 1 || IsPow2(n - 1))
  {
    if n > 1 {
      CapAfterPushesIsSmallestPow2(n - 1);
    }
  }
}
