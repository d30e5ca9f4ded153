/**
 Rounding up with a mask, libquic/base/bits.h, on 64-bit words held as naturals.
*/
module Bits {
  function Pow2(k: nat): (p: nat)
    ensures p > 0
  {
    if k == 0 then 1 else 2 * Pow2(k - 1)
  }

  /** Bitwise and. */
  function And(x: nat, y: nat): nat
    decreases x
  {
    if x == 0 then 0 else 2 * And(x / 2, y / 2) + (if x % 2 == 1 && y % 2 == 1 then 1 else 0)
  }

  /** (size + alignment - 1) & ~(alignment - 1) on words of w bits. */
  function Align(size: nat, alignment: nat, w: nat): nat
    requires 0 < alignment < Pow2(w)
  {
    And((size + alignment - 1) % Pow2(w), Pow2(w) - 1 - (alignment - 1))
  }

  /** The smallest multiple of `a` that is not below `n`. */
  ghost predicate RoundsUp(n: nat, a: nat, r: nat)
    requires a > 0
  {
    r % a == 0 && n <= r < n + a
  }

  lemma {:induction false} AndAllOnes(y: nat, w: nat)
    requires y < Pow2(w)
    ensures And(y, Pow2(w) - 1) == y
  {
    if y != 0 {
      assert (Pow2(w) - 1) / 2 == Pow2(w - 1) - 1;
      AndAllOnes(y / 2, w - 1);
    }
  }

  /** `y` with its low k bits cleared. */
  function Cleared(y: nat, k: nat): nat
    decreases k
  {
    if k == 0 then y else 2 * Cleared(y / 2, k - 1)
  }

  lemma {:induction false} AndMask(y: nat, w: nat, k: nat)
    requires y < Pow2(w) && k <= w
    ensures Pow2(k) <= Pow2(w) && And(y, Pow2(w) - Pow2(k)) == Cleared(y, k)
    decreases k
  {
    PowGrows(k, w);
    if k == 0 {
      AndAllOnes(y, w);
    } else {
      AndMask(y / 2, w - 1, k - 1);
      AndEven(y, Pow2(w - 1) - Pow2(k - 1));
    }
  }

  lemma AndEven(y: nat, m: nat)
    ensures And(y, 2 * m) == 2 * And(y / 2, m)
  {
    assert 2 * m / 2 == m && 2 * m % 2 == 0;
  }

  lemma {:induction false} ClearedIsRemainder(y: nat, k: nat)
    ensures Cleared(y, k) == y - y % Pow2(k)
    decreases k
  {
    if k > 0 {
      ClearedIsRemainder(y / 2, k - 1);
      HalfRemainder(y, Pow2(k - 1));
    }
  }

  lemma {:induction false} PowGrows(k: nat, w: nat)
    requires k <= w
    ensures Pow2(k) <= Pow2(w)
    ensures k < w ==> Pow2(k) < Pow2(w)
  {
    if k < w { PowGrows(k, w - 1); }
  }

  lemma {:induction false} PowAdds(a: nat, b: nat)
    ensures Pow2(a + b) == Pow2(a) * Pow2(b)
  {
    if a > 0 {
      PowAdds(a - 1, b);
      Twice(Pow2(a - 1), Pow2(b));
      assert a - 1 + b == a + b - 1;
    }
  }

  lemma Twice(x: nat, y: nat)
    ensures 2 * (x * y) == 2 * x * y
  {
  }

  lemma HalfRemainder(y: nat, p: nat)
    requires p > 0
    ensures y % (2 * p) == 2 * (y / 2 % p) + y % 2
  {
    var h := y / 2;
    var q, r := h / p, h % p;
    assert y == 2 * (p * q + r) + y % 2 == 2 * p * q + (2 * r + y % 2);
    RemainderOf(y, 2 * p, q, 2 * r + y % 2);
  }

  lemma RemainderOf(n: nat, p: nat, q: nat, r: nat)
    requires n == p * q + r && r < p
    ensures n % p == r && n / p == q
  {
    var d := n / p - q;
    assert p * d == p * (n / p) - p * q == r - n % p;
    assert d >= 1 ==> p * d >= p;
    assert d <= -1 ==> p * d <= 0 - p;
  }

  lemma RoundingUp(size: nat, a: nat, sum: nat)
    requires a > 0 && sum == size + a - 1
    ensures RoundsUp(size, a, sum - sum % a)
  {
    RemainderOf(sum - sum % a, a, sum / a, 0);
  }

  /** The mask trick rounds up, unless the sum wraps; then it gives 0. */
  lemma AlignRoundsUp(size: nat, k: nat, w: nat)
    requires size < Pow2(w) && k < w
    ensures Pow2(k) < Pow2(w)
    ensures if size + Pow2(k) - 1 < Pow2(w) then RoundsUp(size, Pow2(k), Align(size, Pow2(k), w))
            else Align(size, Pow2(k), w) == 0
  {
    PowGrows(k, w);
    if size + Pow2(k) - 1 < Pow2(w) { AlignWithin(size, k, w); } else { AlignWraps(size, k, w); }
  }

  /** Align clears the low bits of the sum, which is taken modulo 2^w. */
  lemma AlignIsCleared(size: nat, k: nat, w: nat, y: nat)
    requires k < w && Pow2(k) < Pow2(w) && y < Pow2(w)
    requires y == (size + Pow2(k) - 1) % Pow2(w)
    ensures Align(size, Pow2(k), w) == Cleared(y, k)
  {
    AndMask(y, w, k);
  }

  lemma AlignWithin(size: nat, k: nat, w: nat)
    requires k < w && Pow2(k) < Pow2(w) && size + Pow2(k) - 1 < Pow2(w)
    ensures RoundsUp(size, Pow2(k), Align(size, Pow2(k), w))
  {
    var sum := size + Pow2(k) - 1;
    RemainderOf(sum, Pow2(w), 0, sum);
    AlignIsCleared(size, k, w, sum);
    ClearedRoundsUp(size, k, sum);
  }

  lemma ClearedRoundsUp(size: nat, k: nat, sum: nat)
    requires sum == size + Pow2(k) - 1
    ensures RoundsUp(size, Pow2(k), Cleared(sum, k))
  {
    ClearedIsRemainder(sum, k);
    RoundingUp(size, Pow2(k), sum);
  }

  lemma AlignWraps(size: nat, k: nat, w: nat)
    requires k < w && Pow2(k) < Pow2(w) && size < Pow2(w) <= size + Pow2(k) - 1
    ensures Align(size, Pow2(k), w) == 0
  {
    var sum := size + Pow2(k) - 1;
    var over := sum - Pow2(w);
    RemainderOf(sum, Pow2(w), 1, over);
    AlignIsCleared(size, k, w, over);
    ClearedIsRemainder(over, k);
    RemainderOf(over, Pow2(k), 0, over);
  }

  /** The DCHECK's test accepts exactly the powers of two. */
  lemma {:induction false} PowerOfTwoTest(a: nat)
    requires a > 0
    ensures And(a, a - 1) == 0 <==> exists k: nat :: a == Pow2(k)
  {
    if a == 1 {
      assert a == Pow2(0);
    } else if a % 2 == 0 {
      PowerOfTwoTest(a / 2);
      assert (a - 1) / 2 == a / 2 - 1;
      if k: nat :| a / 2 == Pow2(k) { assert a == Pow2(k + 1); }
      if k: nat :| a == Pow2(k) { assert a / 2 == Pow2(k - 1); }
    } else {
      assert (a - 1) / 2 == a / 2;
      AndSelf(a / 2);
      forall k: nat ensures a != Pow2(k) { PowIsEven(k); }
    }
  }

  lemma PowIsEven(k: nat)
    ensures k > 0 ==> Pow2(k) % 2 == 0
  {
  }

  lemma {:induction false} AndSelf(x: nat)
    ensures And(x, x) == x
  {
    if x != 0 { AndSelf(x / 2); }
  }
}
