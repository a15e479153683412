/** Shell arithmetic on addresses: what a mask keeps is the leading bits. */
module Masks {
  function Pow2(n: nat): (p: nat)
    ensures p > 0
  {
    if n == 0 then 1 else 2 * Pow2(n - 1)
  }

  /** `x & y` */
  function And(x: nat, y: nat): nat {
    if x == 0 || y == 0 then 0 else (if x % 2 == 1 && y % 2 == 1 then 1 else 0) + 2 * And(x / 2, y / 2)
  }

  /** `x << n` */
  function Shl(x: nat, n: nat): nat { x * Pow2(n) }

  const ALL_ONES: nat := 0xFFFF_FFFF
  const WORD: nat := 0x1_0000_0000

  /** `0xFFFFFFFF << (32 - len) & 0xFFFFFFFF` */
  function Mask(len: nat): nat
    requires len <= 32
  {
    And(Shl(ALL_ONES, 32 - len), ALL_ONES)
  }

  lemma {:induction false} DivModUnique(x: nat, d: nat, q: nat, r: nat)
    requires d > 0 && x == d * q + r && r < d
    ensures x / d == q && x % d == r
  {
    var gap: int := x / d - q;
    assert d * gap == r - x % d by {
      assert x == d * (x / d) + x % d;
      Distribute(d, x / d, q);
    }
    if gap >= 1 { ScalesUp(d, gap); } else if gap <= -1 { ScalesUp(d, -gap); Negated(d, gap); }
  }

  lemma Distribute(d: int, a: int, b: int)
    ensures d * (a - b) == d * a - d * b
  {
  }

  lemma Negated(d: int, a: int)
    ensures d * -a == -(d * a)
  {
  }

  lemma ScalesUp(d: int, g: int)
    requires d > 0 && g >= 1
    ensures d * g >= d
  {
  }

  lemma Regroup(a: int, b: int, c: int)
    ensures a * (b * c) == a * b * c
  {
  }

  lemma Combine(x: nat, a: nat, b: nat, q: nat, r: nat, s: nat, t: nat)
    requires x == a * q + r && q == b * s + t && r < a && t < b
    ensures x == a * b * s + (a * t + r) && a * t + r < a * b
  {
    Distribute(a, b, t);
    ScalesUp(a, b - t);
    Added(a, b * s, t);
    Regroup(a, b, s);
  }

  lemma Added(d: int, a: int, b: int)
    ensures d * (a + b) == d * a + d * b
  {
  }

  /** Dividing twice, and the remainder by a product. */
  lemma DivDiv(x: nat, a: nat, b: nat)
    requires a > 0 && b > 0
    ensures a * b > 0 && x / (a * b) == x / a / b && x % (a * b) == a * (x / a % b) + x % a
  {
    ScalesUp(a, b);
    Combine(x, a, b, x / a, x % a, x / a / b, x / a % b);
    DivModUnique(x, a * b, x / a / b, a * (x / a % b) + x % a);
  }

  /** The leading bits of the low word. */
  lemma LowWord(x: nat, a: nat, b: nat)
    requires a > 0 && b > 0
    ensures a * b > 0 && x % (a * b) / a == x / a % b
  {
    DivDiv(x, a, b);
    DivModUnique(x % (a * b), a, x / a % b, x % a);
  }

  lemma {:induction false} PowAdd(m: nat, n: nat)
    ensures Pow2(m + n) == Pow2(m) * Pow2(n)
  {
    if m > 0 {
      PowAdd(m - 1, n);
      Regroup(2, Pow2(m - 1), Pow2(n));
    }
  }

  lemma {:induction false} AndOnes(x: nat, n: nat)
    ensures And(x, Pow2(n) - 1) == x % Pow2(n)
  {
    if n > 0 {
      var y := Pow2(n) - 1;
      assert y % 2 == 1 && y / 2 == Pow2(n - 1) - 1;
      AndOnes(x / 2, n - 1);
      DivDiv(x, 2, Pow2(n - 1));
    }
  }

  lemma {:induction false} AndShifted(x: nat, n: nat, m: nat, p: nat, y: nat, q: nat)
    requires p == Pow2(n) && y == p * m && q == x / p
    ensures And(x, y) == p * And(q, m)
    decreases n
  {
    if n == 0 {
      assert p == 1;
    } else {
      var half, z := Pow2(n - 1), And(q, m);
      DivDiv(x, 2, half);
      AndShifted(x / 2, n - 1, m, half, half * m, q);
      Regroup(2, half, m);
      Regroup(2, half, z);
      AndEven(x, y, half * m);
    }
  }

  lemma AndEven(x: nat, y: nat, half: nat)
    requires y == 2 * half
    ensures And(x, y) == 2 * And(x / 2, half)
  {
  }

  lemma WordIs()
    ensures Pow2(32) == WORD
  {
    assert Pow2(2) == 4;
    Squares(2, 4);
    Squares(4, 16);
    Squares(8, 256);
    Squares(16, 65536);
  }

  lemma Squares(n: nat, p: nat)
    requires Pow2(n) == p
    ensures Pow2(n + n) == p * p
  {
    PowAdd(n, n);
  }

  lemma SplitWord(len: nat)
    requires len <= 32
    ensures Pow2(32 - len) * Pow2(len) == WORD
  {
    WordIs();
    PowAdd(32 - len, len);
  }

  lemma MaskIs(len: nat)
    requires len <= 32
    ensures Mask(len) == Pow2(32 - len) * (Pow2(len) - 1)
  {
    var a, b := Pow2(32 - len), Pow2(len);
    SplitWord(len);
    WordIs();
    AndOnes(ALL_ONES * a, 32);
    Distribute(a, b, 1);
    Distribute(a, WORD, 1);
    Distribute(WORD, a, 1);
    DivModUnique(ALL_ONES * a, WORD, a - 1, a * (b - 1));
  }

  function Quotient(x: nat, d: nat): nat
    requires d > 0
  {
    x / d
  }

  /** The block of `2^(32 - len)` addresses that `x` is in. */
  function Block(x: nat, len: nat): nat
    requires len <= 32
  {
    Quotient(x % WORD, Pow2(32 - len))
  }

  lemma Masked(x: nat, len: nat)
    requires len <= 32
    ensures And(x, Mask(len)) == Pow2(32 - len) * Block(x, len)
  {
    MaskIs(len);
    BlockIs(x, len, Pow2(32 - len), Pow2(len));
    AndKeeps(x, 32 - len, len, Pow2(32 - len), Pow2(len), Mask(len));
  }

  lemma AndKeeps(x: nat, k: nat, n: nat, a: nat, b: nat, mask: nat)
    requires a == Pow2(k) && b == Pow2(n) && mask == a * (b - 1)
    ensures And(x, mask) == a * (x / a % b)
  {
    var q := x / a;
    AndShifted(x, k, b - 1, a, mask, q);
    OnesKeep(q, n, b, b - 1);
    Rewrites(And(x, mask), a, And(q, b - 1), q % b);
  }

  lemma Rewrites(x: int, a: int, u: int, v: int)
    requires x == a * u && u == v
    ensures x == a * v
  {
  }

  lemma OnesKeep(q: nat, len: nat, b: nat, ones: nat)
    requires b == Pow2(len) && ones == b - 1
    ensures And(q, ones) == q % b
  {
    AndOnes(q, len);
  }

  lemma BlockIs(x: nat, len: nat, a: nat, b: nat)
    requires len <= 32 && a == Pow2(32 - len) && b == Pow2(len)
    ensures Block(x, len) == x / a % b
  {
    SplitWord(len);
    LowWord(x, a, b);
  }

  /** Two addresses agree under a mask exactly when they lie in one block. */
  lemma MaskCompares(x: nat, y: nat, len: nat)
    requires len <= 32
    ensures And(x, Mask(len)) == And(y, Mask(len)) <==> Block(x, len) == Block(y, len)
  {
    Masked(x, len);
    Masked(y, len);
    Cancel(Pow2(32 - len), Block(x, len), Block(y, len));
  }

  lemma Cancel(d: int, a: int, b: int)
    requires d > 0
    ensures d * a == d * b <==> a == b
  {
    Distribute(d, a, b);
    if a > b { ScalesUp(d, a - b); } else if b > a { ScalesUp(d, b - a); Distribute(d, b, a); }
  }

  /** The shorter prefix groups the blocks of the longer one. */
  lemma BlockOfBlock(x: nat, short: nat, long: nat)
    requires short <= long <= 32
    ensures Block(x, short) == Block(x, long) / Pow2(long - short)
  {
    PowAdd(32 - long, long - short);
    DivDiv(x % WORD, Pow2(32 - long), Pow2(long - short));
  }
}
