/** Wide products and division built from 32-bit halves (io_uring/math64.h, the
    versions for machines without 128-bit integers, and rust/types.c).  A 64-bit
    word is a natural number below 2^64; every place where the source keeps only
    the low bits is written out. */
module Limb {
  import opened Arith

  const W32: nat := 0x1_0000_0000
  const W64: nat := 0x1_0000_0000_0000_0000

  function Pow2(n: nat): (r: nat)
    ensures r > 0
  {
    if n == 0 then 1 else 2 * Pow2(n - 1)
  }

  /** The two halves of a 64-bit word, and a word put together from two halves. */
  function Low(x: nat): (r: nat) ensures r < W32 { x % W32 }
  function High(x: nat): (r: nat) ensures r < W32 { x / W32 % W32 }
  function Join(high: nat, low: nat): (r: nat) ensures r < W64 { high % W32 * W32 + low % W32 }

  /** Shifts of 64-bit words. */
  function Shr(x: nat, n: nat): nat { Quot(x, Pow2(n)) }
  function Shl(x: nat, n: nat): nat { Rem(Mul(x, Pow2(n)), W64) }

  /** Bitwise or. */
  function Or(x: nat, y: nat): nat {
    if x == 0 && y == 0 then 0
    else 2 * Or(x / 2, y / 2) + if x % 2 == 1 || y % 2 == 1 then 1 else 0
  }

  lemma Halves(x: nat)
    requires x < W64
    ensures x == High(x) * W32 + Low(x)
  {
  }

  lemma Joined(high: nat, low: nat)
    requires high < W32
    ensures Join(high, low) == high * W32 + Low(low)
  {
  }

  lemma Joins(x: nat, low: nat)
    ensures Join(x, low) == Low(x) * W32 + Low(low)
  {
  }

  // ----- powers of two -----

  lemma {:induction false} Pow2Sum(m: nat, n: nat)
    ensures Pow2(m + n) == Mul(Pow2(m), Pow2(n))
    decreases n
  {
    if n > 0 {
      Pow2Sum(m, n - 1);
      MulLaws(Pow2(m), Pow2(n - 1), Pow2(n - 1));
    }
  }

  lemma Pow2Whole()
    ensures Pow2(32) == W32 && Pow2(64) == W64
  {
    assert Pow2(8) == 256;
    Pow2Sum(8, 8);
    Pow2Sum(16, 16);
    Pow2Sum(32, 32);
  }

  /** Bits below and bits above position `n` do not meet. */
  lemma {:induction false} OrApart(x: nat, y: nat, n: nat)
    requires x < Pow2(n)
    ensures Or(x, Mul(y, Pow2(n))) == x + Mul(y, Pow2(n))
    decreases n
  {
    if n == 0 {
      OrZero(y);
      MulUnit(y);
    } else {
      MulLaws(y, Pow2(n - 1), Pow2(n - 1));
      assert Mul(y, Pow2(n)) == 2 * Mul(y, Pow2(n - 1));
      OrApart(x / 2, y, n - 1);
    }
  }

  lemma {:induction false} OrZero(y: nat)
    ensures Or(0, y) == y
  {
    if y > 0 { OrZero(y / 2); }
  }

  // ----- 64 by 64 bits -----

  /** The product of two words from the products of their halves. */
  lemma HalvesProduct(ah: nat, al: nat, bh: nat, bl: nat)
    ensures Mul(ah * W32 + al, bh * W32 + bl) == Mul(ah, bh) * W64 + (Mul(al, bh) + Mul(ah, bl)) * W32 + Mul(al, bl)
  {
    ScaleLeft(ah, al, bh * W32 + bl);
    ScaleRight(ah, bh, bl);
    ScaleRight(al, bh, bl);
  }

  lemma ScaleLeft(h: nat, l: nat, y: nat)
    ensures Mul(h * W32 + l, y) == Mul(h, y) * W32 + Mul(l, y)
  {
    MulLaws(y, h * W32, l);
    MulLaws(W32, h, y);
  }

  lemma ScaleRight(x: nat, h: nat, l: nat)
    ensures Mul(x, h * W32 + l) == Mul(x, h) * W32 + Mul(x, l)
  {
    ScaleLeft(h, l, x);
  }

  /** The 128-bit product, as its low and its high word. */
  method Product(a: nat, b: nat) returns (low: nat, high: nat)
    requires a < W64 && b < W64
    ensures low < W64 && high < W64 && low + high * W64 == Mul(a, b)
  {
    hide Mul, Low, High, Join;
    var rl, rm, rn, rh := Mul(Low(a), Low(b)), Mul(Low(a), High(b)), Mul(High(a), Low(b)), Mul(High(a), High(b));
    var c := High(rl) + Low(rm) + Low(rn);
    low := Join(c, rl);
    c := High(c) + High(rm) + High(rn) + Low(rh);
    high := Join(High(c) + High(rh), c);
    PartialProducts(a, b);
    NoLostCarry(rl, rm, rn, rh);
  }

  lemma PartialProducts(a: nat, b: nat)
    requires a < W64 && b < W64
    ensures var rl, rm, rn, rh := Mul(Low(a), Low(b)), Mul(Low(a), High(b)), Mul(High(a), Low(b)),
        Mul(High(a), High(b));
            && rl < W64 && rm < W64 && rn < W64 && rh < W64
            && Mul(a, b) == rh * W64 + (rm + rn) * W32 + rl && Mul(a, b) < W64 * W64
  {
    hide Mul, Low, High;
    Halves(a);
    Halves(b);
    HalvesProduct(High(a), Low(a), High(b), Low(b));
    WordSquares();
    MulLess(a, b, W64, W64);
    MulLess(Low(a), Low(b), W32, W32);
    MulLess(Low(a), High(b), W32, W32);
    MulLess(High(a), Low(b), W32, W32);
    MulLess(High(a), High(b), W32, W32);
  }

  lemma WordSquares()
    ensures Mul(W32, W32) == W64 && Mul(W64, W64) == W64 * W64 && Mul(W32 - 1, W32 - 1) + W32 < W64
  {
  }

  /** Adding up the four partial products column by column loses no carry, not even
      in the last column, which the source computes in 32 bits. */
  lemma NoLostCarry(rl: nat, rm: nat, rn: nat, rh: nat)
    requires rl < W64 && rm < W64 && rn < W64 && rh < W64
    requires rh * W64 + (rm + rn) * W32 + rl < W64 * W64
    ensures var c1 := High(rl) + Low(rm) + Low(rn);
            var c2 := High(c1) + High(rm) + High(rn) + Low(rh);
            && c1 < W64 && c2 < W64 && High(c2) + High(rh) < W32
            && Join(c1, rl) + Join(High(c2) + High(rh), c2) * W64 == rh * W64 + (rm + rn) * W32 + rl
  {
    hide Low, High, Join;
    var c1 := High(rl) + Low(rm) + Low(rn);
    var c2 := High(c1) + High(rm) + High(rn) + Low(rh);
    Halves(rl);
    Halves(rm);
    Halves(rn);
    Halves(rh);
    Halves(c1);
    Halves(c2);
    Joins(c1, rl);
    Joined(High(c2) + High(rh), c2);
  }

  /** `(a * b) >> shift`, its low 64 bits. */
  method MulU64U64Shr(a: nat, b: nat, shift: nat) returns (r: nat)
    requires a < W64 && b < W64 && shift < 128
    ensures r == a * b / Pow2(shift) % W64
  {
    var rl, rh := Product(a, b);
    if shift == 0 {
      r := rl;
      WholeProduct(rl, rh);
    } else if shift < 64 {
      r := Or(Shr(rl, shift), Shl(rh, 64 - shift));
      LowShift(rl, rh, shift);
    } else {
      r := Shr(rh, shift % 64);
      HighShift(rl, rh, shift - 64);
    }
    ShiftedProduct(a, b, rl, rh, shift);
  }

  lemma ShiftedProduct(a: nat, b: nat, rl: nat, rh: nat, s: nat)
    requires Mul(a, b) == rl + rh * W64
    ensures Rem(Quot(rl + Mul(rh, W64), Pow2(s)), W64) == a * b / Pow2(s) % W64
  {
  }

  lemma WholeProduct(rl: nat, rh: nat)
    requires rl < W64
    ensures Rem(Quot(rl + Mul(rh, W64), Pow2(0)), W64) == rl
  {
    var n := rl + Mul(rh, W64);
    QuotSum(rh, rl, W64);
    MulUnit(n);
    Quotient(n, 1, n, 0);
    MulUnit(W64);
    Quotient(rl, W64, 0, rl);
  }

  lemma LowShift(rl: nat, rh: nat, s: nat)
    requires rl < W64 && 0 < s < 64
    ensures Or(Shr(rl, s), Shl(rh, 64 - s)) == Rem(Quot(rl + Mul(rh, W64), Pow2(s)), W64)
  {
    hide Mul, Quot, Rem, Pow2, Or;
    var m, k := Pow2(s), Pow2(64 - s);
    Pow2Sum(s, 64 - s);
    Pow2Whole();
    var x, y := Quot(rl, m), Rem(rh, m);
    QuotLess(rl, m, k);
    RemMul(rh, m, k);
    OrApart(x, y, 64 - s);
    MulLaws(rh, k, m);
    MulLaws(m, k, k);
    QuotSum(Mul(rh, k), rl, m);
    BelowBit(Mul(rh, k), x, y, m, k);
  }

  /** `x` fits below the lowest bit of a multiple of `k`. */
  lemma BelowBit(z: nat, x: nat, y: nat, m: nat, k: nat)
    requires Mul(m, k) == W64 && x < k && y < m && Rem(z, W64) == Mul(y, k)
    ensures Rem(z + x, W64) == x + Mul(y, k)
  {
    hide Mul, Quot, Rem;
    MulUp(y + 1, k, m, k);
    MulLaws(k, y, 1);
    MulUnit(k);
    Divide(z, W64);
    Quotient(z + x, W64, Quot(z, W64), Mul(y, k) + x);
  }

  lemma HighShift(rl: nat, rh: nat, s: nat)
    requires rl < W64 && rh < W64 && s < 64
    ensures Shr(rh, s) == Rem(Quot(rl + Mul(rh, W64), Pow2(s + 64)), W64)
  {
    hide Mul, Quot, Rem, Pow2;
    var m := Pow2(s);
    Pow2Sum(s, 64);
    Pow2Whole();
    var q, r := Quot(rh, m), Rem(rh, m);
    Divide(rh, m);
    MulLaws(W64, Mul(q, m), r);
    MulLaws(q, m, W64);
    MulUp(r + 1, W64, m, W64);
    MulLaws(W64, r, 1);
    MulUnit(W64);
    Quotient(rl + Mul(rh, W64), Mul(m, W64), q, Mul(r, W64) + rl);
    MulUp(q, 1, q, m);
    MulUnit(q);
    Quotient(q, W64, 0, q);
  }

  // ----- 64 by 32 bits -----

  /** `(a * mul) >> shift`, its low 64 bits. */
  method MulU64U32Shr(a: nat, mul: nat, shift: nat) returns (r: nat)
    requires a < W64 && mul < W32 && (shift <= 32 || (a < W32 && shift < 64))
    ensures r == a * mul / Pow2(shift) % W64
  {
    var ah, al := High(a), Low(a);
    Halves(a);
    r := Shr(Mul(al, mul), shift);
    if ah != 0 {
      r := Rem(r + Shl(Mul(ah, mul), 32 - shift), W64);
    }
    if shift <= 32 {
      ShiftedParts(ah, al, mul, shift);
    } else {
      ShiftedLow(al, mul, shift);
    }
    ShortProduct(a, mul, Pow2(shift));
  }

  lemma ShiftedLow(al: nat, mul: nat, s: nat)
    requires al < W32 && mul < W32 && s < 64
    ensures Rem(Quot(Mul(al, mul), Pow2(s)), W64) == Shr(Mul(al, mul), s)
  {
    hide Mul, Quot, Rem, Pow2;
    WordSquares();
    MulLess(al, mul, W32, W32);
    QuotBelow(Mul(al, mul), Pow2(s));
    SmallRem(Quot(Mul(al, mul), Pow2(s)));
  }

  lemma SmallRem(x: nat)
    requires x < W64
    ensures Rem(x, W64) == x
  {
  }

  lemma ShortProduct(a: nat, mul: nat, d: nat)
    requires d > 0
    ensures Rem(Quot(Mul(a, mul), d), W64) == a * mul / d % W64
  {
  }

  lemma ShiftedParts(ah: nat, al: nat, mul: nat, s: nat)
    requires ah < W32 && al < W32 && mul < W32 && s <= 32
    ensures var whole := Rem(Quot(Mul(ah * W32 + al, mul), Pow2(s)), W64);
            && whole == Rem(Shr(Mul(al, mul), s) + Shl(Mul(ah, mul), 32 - s), W64)
            && (ah == 0 ==> whole == Shr(Mul(al, mul), s))
  {
    hide Mul, Quot, Rem, Pow2;
    var m, k := Pow2(s), Pow2(32 - s);
    var x, y := Quot(Mul(al, mul), m), Mul(Mul(ah, mul), k);
    Pow2Sum(32 - s, s);
    Pow2Whole();
    ScaleLeft(ah, al, mul);
    MulLaws(Mul(ah, mul), k, m);
    WordTimes(Mul(ah, mul));
    QuotSum(y, Mul(al, mul), m);
    RemAdd(x, y);
    WordSquares();
    MulLess(al, mul, W32, W32);
    QuotBelow(Mul(al, mul), m);
    MulUnit(mul);
    MulUnit(k);
    MulUnit(W64);
    Quotient(x, W64, 0, x);
  }

  lemma WordTimes(x: nat)
    ensures x * W32 == Mul(x, W32)
  {
  }

  lemma QuotBelow(n: nat, m: nat)
    requires m > 0
    ensures Quot(n, m) <= n
  {
    hide Mul, Quot, Rem;
    Divide(n, m);
    MulUp(Quot(n, m), 1, Quot(n, m), m);
    MulUnit(Quot(n, m));
  }

  lemma RemAdd(x: nat, y: nat)
    ensures Rem(x + y, W64) == Rem(x + Rem(y, W64), W64)
  {
    hide Mul, Quot, Rem;
    Divide(y, W64);
    QuotSum(Quot(y, W64), x + Rem(y, W64), W64);
  }

  /** `a * mul / divisor`, its low 64 bits. */
  method MulU64U32Div(a: nat, mul: nat, divisor: nat) returns (r: nat)
    requires a < W64 && mul < W32 && 0 < divisor < W32
    ensures r == a * mul / divisor % W64
  {
    hide Mul, Quot, Rem, Low, High, Join;
    var rl := Mul(Low(a), mul);
    var rh := Mul(High(a), mul) + High(rl);
    var rem := Rem(rh, divisor);
    rh := Quot(rh, divisor);
    rl := Join(rem, rl);
    rl := Quot(rl, divisor);
    r := Join(Low(rh), rl);
    Halves(a);
    LongDivision(High(a), Low(a), mul, divisor);
    ShortProduct(a, mul, divisor);
  }

  /** Dividing the high part first, and then its remainder with the low part: no
      intermediate result needs more than 64 bits, and the second quotient fits into
      32 bits. */
  lemma LongDivision(ah: nat, al: nat, mul: nat, d: nat)
    requires ah < W32 && al < W32 && mul < W32 && 0 < d < W32
    ensures var rl := Mul(al, mul);
            var rh := Mul(ah, mul) + High(rl);
            var rest := Quot(Join(Rem(rh, d), rl), d);
            && rl < W64 && rh < W64 && rest < W32
            && Join(Low(Quot(rh, d)), rest) == Rem(Quot(Mul(ah * W32 + al, mul), d), W64)
  {
    hide Mul, Quot, Rem, Low, High, Join;
    WordSquares();
    MulLess(al, mul, W32, W32);
    MulUp(ah, mul, W32 - 1, W32 - 1);
    var rl := Mul(al, mul);
    var rh := Mul(ah, mul) + High(rl);
    var q, rem := Quot(rh, d), Rem(rh, d);
    var low := Join(rem, rl);
    Joined(rem, rl);
    Halves(rl);
    ScaleLeft(ah, al, mul);
    Divide(rh, d);
    WordTimes(q);
    WordTimes(rem);
    WordTimes(rh);
    MulLaws(W32, Mul(q, d), rem);
    MulLaws(W32, q, d);
    MulLaws(d, Mul(q, W32), Mul(q, W32));
    assert Mul(ah * W32 + al, mul) == Mul(Mul(q, W32), d) + low;
    QuotSum(Mul(q, W32), low, d);
    MulUp(rem + 1, W32, d, W32);
    MulLaws(W32, rem, 1);
    MulUnit(W32);
    QuotLess(low, d, W32);
    SplitWord(q, Quot(low, d));
  }

  lemma SplitWord(q: nat, x: nat)
    requires x < W32
    ensures Join(Low(q), x) == Rem(Mul(q, W32) + x, W64)
  {
    var h, l := q / W32, q % W32;
    Quotient(Mul(q, W32) + x, W64, h, l * W32 + x);
  }

  // ----- shift and subtract -----

  /** `x` doubled `k` times. */
  function Doubled(x: nat, k: nat): nat {
    if k == 0 then x else 2 * Doubled(x, k - 1)
  }

  lemma {:induction false} DoubledUnit(x: nat, k: nat)
    ensures Doubled(x, k) == Mul(x, Doubled(1, k))
  {
    if k == 0 {
      MulUnit(x);
    } else {
      DoubledUnit(x, k - 1);
      MulLaws(x, Doubled(1, k - 1), Doubled(1, k - 1));
    }
  }

  lemma {:induction false} DoubledUp(x: nat, k: nat)
    ensures x <= Doubled(x, k)
  {
    if k > 0 { DoubledUp(x, k - 1); }
  }

  /** What the division has done so far: `res` times the base has been taken off. */
  ghost predicate Taken(n: nat, base: nat, res: nat, rem: nat) {
    n == Mul(res, base) + rem
  }

  lemma TakenBounds(n: nat, base: nat, res: nat, rem: nat)
    requires Taken(n, base, res, rem) && base > 0
    ensures res <= n && rem <= n
  {
    MulUp(res, 1, res, base);
    MulUnit(res);
  }

  /** Takes the multiples of `base << 32` off in one step.  The product that the
      source computes in 32 bits fits. */
  method Reduce(n: nat, base: nat) returns (res: nat, rem: nat)
    requires n < W64 && 0 < base < W32
    ensures Taken(n, base, res, rem)
  {
    hide Mul, Quot, Rem;
    res, rem := 0, n;
    var high := n / W32;
    MulUnit(base);
    if high >= base {
      high := Quot(high, base);
      res := high * W32;
      Divide(n / W32, base);
      assert Mul(high, base) < W32;
      rem := rem - Mul(high, base) * W32;
      ScaleLeft(high, 0, base);
      MulUnit(base);
    }
  }

  /** Doubles `b` and `d` until `b` is at least `rem` or has its top bit set.  No
      doubling overflows. */
  method Scale(base: nat, rem: nat) returns (b: nat, d: nat, ghost k: nat)
    requires 0 < base < W32 && rem < W64
    ensures b == Doubled(base, k) && d == Doubled(1, k) && 0 < d <= b < W64 && rem < 2 * b
  {
    b, d, k := base, 1, 0;
    while b < W64 / 2 && b < rem
      invariant b == Doubled(base, k) && d == Doubled(1, k) && 0 < d <= b < W64
      decreases W64 - b
    {
      b, d, k := b + b, d + d, k + 1;
    }
  }

  /** Unsigned division of a 64-bit by a nonzero 32-bit number. */
  method Div64(n: nat, base: nat) returns (res: nat, rem: nat)
    requires n < W64 && 0 < base < W32
    ensures res < W64 && rem < base && n == res * base + rem
  {
    res, rem := Reduce(n, base);
    TakenBounds(n, base, res, rem);
    var b, d;
    ghost var k;
    b, d, k := Scale(base, rem);
    while d != 0
      invariant Taken(n, base, res, rem) && res < W64
      invariant d != 0 ==> b == Doubled(base, k) && d == Doubled(1, k) && rem < 2 * b
      invariant d == 0 ==> rem < base
      decreases d
    {
      if rem >= b {
        res, rem := Subtract(n, base, res, rem, b, d, k);
      }
      b, d := b / 2, d / 2;
      if k > 0 {
        k := k - 1;
        DoubledUp(1, k);
      }
    }
  }

  /** One subtraction. */
  method Subtract(n: nat, base: nat, res: nat, rem: nat, b: nat, d: nat, ghost k: nat) returns (res': nat, rem': nat)
    requires n < W64 && base > 0 && Taken(n, base, res, rem) && b <= rem
    requires b == Doubled(base, k) && d == Doubled(1, k)
    ensures Taken(n, base, res', rem') && rem' == rem - b && res' < W64
  {
    hide Mul, Doubled;
    res', rem' := res + d, rem - b;
    DoubledUnit(base, k);
    MulLaws(base, res, d);
    MulLaws(base, d, d);
    TakenBounds(n, base, res', rem');
  }
}
