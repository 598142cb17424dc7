/** The few facts about products and quotients that the other modules share. */
module Arith {

  function Quot(a: nat, b: nat): (q: nat)
    requires b > 0
  {
    a / b
  }

  function Rem(a: nat, b: nat): (r: nat)
    requires b > 0
    ensures r < b
  {
    a % b
  }

  lemma DivMod(a: nat, b: nat)
    requires b > 0
    ensures a == Quot(a, b) * b + Rem(a, b) && Rem(a, b) < b
  {
  }

  lemma MulMono(a: nat, b: nat, p: nat)
    requires a <= b
    ensures a * p <= b * p
  {
  }

  lemma MulSuc(a: nat, p: nat)
    ensures (a + 1) * p == a * p + p
  {
  }

  /** Two numbers in base `p` compare digit by digit. */
  lemma DigitOrder(p: nat, x: nat, r: nat, y: nat, s: nat)
    requires r < p && s < p
    ensures x * p + r < y * p + s <==> x < y || (x == y && r < s)
    ensures x * p + r == y * p + s <==> x == y && r == s
  {
    if x < y {
      MulMono(x + 1, y, p);
      MulSuc(x, p);
    } else if y < x {
      MulMono(y + 1, x, p);
      MulSuc(y, p);
    }
  }

  lemma DivUnique(a: nat, b: nat, q: nat, r: nat)
    requires b > 0 && a == q * b + r && r < b
    ensures Quot(a, b) == q && Rem(a, b) == r
  {
    DivMod(a, b);
    DigitOrder(b, q, r, Quot(a, b), Rem(a, b));
  }

  lemma DivLess(a: nat, b: nat, c: nat)
    requires b > 0
    ensures Quot(a, b) < c <==> a < c * b
  {
    DivMod(a, b);
    DigitOrder(b, Quot(a, b), Rem(a, b), c, 0);
  }

  // ----- products as terms, for calculations that the solver need not multiply out -----

  function Mul(a: nat, b: nat): nat { a * b }

  lemma MulLaws(x: nat, y: nat, z: nat)
    ensures Mul(x, y) == Mul(y, x)
    ensures Mul(x, y + z) == Mul(x, y) + Mul(x, z) && Mul(y + z, x) == Mul(y, x) + Mul(z, x)
    ensures Mul(x, Mul(y, z)) == Mul(Mul(x, y), z)
  {
  }

  lemma MulUnit(x: nat)
    ensures Mul(x, 1) == x && Mul(1, x) == x && Mul(x, 0) == 0 && Mul(0, x) == 0
  {
  }

  lemma MulUp(x: nat, y: nat, m: nat, n: nat)
    requires x <= m && y <= n
    ensures Mul(x, y) <= Mul(m, n)
  {
    MulMono(x, m, y);
    MulMono(y, n, m);
  }

  /** The product of two numbers below `m` and `n`, and room for a carry. */
  lemma MulLess(x: nat, y: nat, m: nat, n: nat)
    requires x < m && y < n
    ensures Mul(x, y) + x + y + 1 <= Mul(m, n)
  {
    MulUp(x + 1, y + 1, m, n);
    MulSuc(x, y + 1);
  }

  lemma Divide(a: nat, b: nat)
    requires b > 0
    ensures a == Mul(Quot(a, b), b) + Rem(a, b) && Rem(a, b) < b
  {
  }

  lemma Quotient(a: nat, b: nat, q: nat, r: nat)
    requires b > 0 && a == Mul(q, b) + r && r < b
    ensures Quot(a, b) == q && Rem(a, b) == r
  {
    DivUnique(a, b, q, r);
  }

  /** A multiple of the divisor comes out of a quotient. */
  lemma QuotSum(k: nat, x: nat, m: nat)
    requires m > 0
    ensures Quot(Mul(k, m) + x, m) == k + Quot(x, m) && Rem(Mul(k, m) + x, m) == Rem(x, m)
  {
    hide Mul, Quot, Rem;
    Divide(x, m);
    MulLaws(m, k, Quot(x, m));
    Quotient(Mul(k, m) + x, m, k + Quot(x, m), Rem(x, m));
  }

  /** A multiple of `k` modulo a multiple of `k`. */
  lemma RemMul(x: nat, m: nat, k: nat)
    requires m > 0 && k > 0 && Mul(m, k) > 0
    ensures Rem(Mul(x, k), Mul(m, k)) == Mul(Rem(x, m), k)
  {
    hide Mul, Quot, Rem;
    var q, r := Quot(x, m), Rem(x, m);
    Divide(x, m);
    MulLaws(k, Mul(q, m), r);
    MulLaws(q, m, k);
    MulUp(r + 1, k, m, k);
    MulLaws(k, r, 1);
    MulUnit(k);
    Quotient(Mul(x, k), Mul(m, k), q, Mul(r, k));
  }

  lemma QuotLess(n: nat, m: nat, k: nat)
    requires m > 0 && n < Mul(m, k)
    ensures Quot(n, m) < k
  {
    DivLess(n, m, k);
  }
}
