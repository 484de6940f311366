/** Arithmetic view of the 2-bit-per-column row words.  The program works on Python integers
    with `<<`, `>>`, `&`, `|` and `^`; every word here is non-negative, so
    - `w << 2 | a` with `0 <= a < 4` is `w * 4 + a`,
    - `w >> (2 * k)` is `Shr2(w, k)` (k times integer division by 4),
    - `(w >> (2 * k)) & 3` is `Digit(w, k)`, the 2-bit group k places from the right,
    - `w & ((1 << (2 * m)) - 1)` is `w % Pow4(m)`,
    - `a ^ b` is `Xor(a, b)`, computed one 2-bit group at a time. */
module Packing {

  function Pow4(k: nat): (r: nat)
    ensures r > 0
  {
    if k == 0 then 1 else 4 * Pow4(k - 1)
  }

  /** `w >> (2 * k)`. */
  function Shr2(w: nat, k: nat): nat {
    if k == 0 then w else Shr2(w / 4, k - 1)
  }

  /** `(w >> (2 * k)) & 3`: the 2-bit group at position k, counted from the least significant. */
  function Digit(w: nat, k: nat): (r: nat)
    ensures r < 4
  {
    Shr2(w, k) % 4
  }

  /** Packs levels left to right, as `b = (b << 2) | level` does: the first level ends up in the
      most significant group. */
  function Pack(levels: seq<nat>): nat {
    if |levels| == 0 then 0 else Pack(levels[..|levels| - 1]) * 4 + levels[|levels| - 1]
  }

  /** The groups of `w`, most significant first, `n` of them. */
  function Digits(w: nat, n: nat): (r: seq<nat>)
    ensures |r| == n
  {
    seq(n, i requires 0 <= i < n => Digit(w, n - 1 - i))
  }

  predicate AllLevels(levels: seq<nat>) {
    forall i :: 0 <= i < |levels| ==> levels[i] < 4
  }

  lemma ShiftedGroup(x: nat, l: nat, k: nat)
    requires l < 4
    ensures Shr2(x * 4 + l, k + 1) == Shr2(x, k)
  {
    assert (x * 4 + l) / 4 == x;
  }

  /** Group k of `x * 4 + l`: the new group l at position 0, the groups of x above it. */
  lemma DigitStep(x: nat, l: nat, k: nat)
    requires l < 4
    ensures Digit(x * 4 + l, k) == if k == 0 then l else Digit(x, k - 1)
  {
    if k > 0 {
      ShiftedGroup(x, l, k - 1);
    }
  }

  /** Packing is unpacked by `Digit`: the level of column i of a row of n levels is the group
      n-1-i places from the right, and the word fits in 2n bits. */
  lemma {:induction false} PackDigits(levels: seq<nat>)
    requires AllLevels(levels)
    ensures Pack(levels) < Pow4(|levels|)
    ensures forall i :: 0 <= i < |levels| ==> Digit(Pack(levels), |levels| - 1 - i) == levels[i]
  {
    if |levels| > 0 {
      var n := |levels|;
      var front, last := levels[..n - 1], levels[n - 1];
      PackDigits(front);
      var w := Pack(front);
      assert Pack(levels) == w * 4 + last;
      assert Pow4(n) == 4 * Pow4(n - 1);
      forall i | 0 <= i < n
        ensures Digit(Pack(levels), n - 1 - i) == levels[i]
      {
        DigitStep(w, last, n - 1 - i);
        if i < n - 1 {
          assert Digit(w, n - 2 - i) == front[i];
        }
      }
    }
  }

  /** Conversely a word of at most 2n bits is re-packed from its n groups. */
  lemma {:induction false} PackOfDigits(w: nat, n: nat)
    requires w < Pow4(n)
    ensures Pack(Digits(w, n)) == w
  {
    if n > 0 {
      var ds := Digits(w, n);
      PackOfDigits(w / 4, n - 1);
      assert ds[..n - 1] == Digits(w / 4, n - 1) by {
        forall i | 0 <= i < n - 1
          ensures ds[i] == Digits(w / 4, n - 1)[i]
        {
          var k := n - 2 - i;
          assert Shr2(w, k + 1) == Shr2(w / 4, k);
          assert ds[i] == Digit(w, k + 1) == Digit(w / 4, k);
          assert Digits(w / 4, n - 1)[i] == Digit(w / 4, k);
        }
      }
      assert ds[n - 1] == Digit(w, 0) == w % 4;
    }
  }

  /** Exclusive or of two 2-bit groups. */
  function XorGroup(a: nat, b: nat): (r: nat)
    requires a < 4 && b < 4
    ensures r < 4
    ensures r == 0 <==> a == b
  {
    (a % 2 + b % 2) % 2 + 2 * ((a / 2 + b / 2) % 2)
  }

  /** `a ^ b` on non-negative integers, one 2-bit group at a time. */
  function Xor(a: nat, b: nat): nat
    decreases a + b
  {
    if a == 0 && b == 0 then 0 else Xor(a / 4, b / 4) * 4 + XorGroup(a % 4, b % 4)
  }

  /** Sum of the 2-bit groups, the result of `while d > 0: s += d & 3; d >>= 2`. */
  function GroupSum(d: nat): nat {
    if d == 0 then 0 else d % 4 + GroupSum(d / 4)
  }

  /** `x ^ x == 0`. */
  lemma {:induction false} XorSelf(a: nat)
    ensures Xor(a, a) == 0
  {
    if a != 0 {
      XorSelf(a / 4);
    }
  }

  /** The group sum is zero exactly for zero words, so `d ^ t` scores nothing exactly when the
      window equals the template row. */
  lemma GroupSumZero(d: nat)
    ensures GroupSum(d) == 0 <==> d == 0
  {
  }

  /** Every group contributes at most 3, so a word of n groups sums to at most 3n. */
  lemma {:induction false} GroupSumBound(d: nat, n: nat)
    requires d < Pow4(n)
    ensures GroupSum(d) <= 3 * n
  {
    if n > 0 && d > 0 {
      GroupSumBound(d / 4, n - 1);
    }
  }
}
