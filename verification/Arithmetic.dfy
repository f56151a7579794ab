/** The few facts about products, division and bits that the models need. */
module Arithmetic {

  /** A product as repeated addition, so that row and pixel offsets stay linear. */
  function Times(n: nat, d: nat): nat {
    if n == 0 then 0 else Times(n - 1, d) + d
  }

  lemma {:induction false} TimesIsProduct(n: nat, d: nat)
    ensures Times(n, d) == n * d
  {
    if n == 0 {
    } else {
      TimesIsProduct(n - 1, d);
      assert n * d == (n - 1) * d + d;
    }
  }

  lemma {:induction false} TimesMonotone(m: nat, n: nat, d: nat)
    requires m <= n
    ensures Times(m, d) <= Times(n, d)
    decreases n
  {
    if m < n {
      TimesMonotone(m, n - 1, d);
    }
  }

  /** Writing a number as q * d + r determines q. */
  lemma QuotientUnique(q: nat, r: nat, d: nat)
    requires r < d
    ensures (q * d + r) / d == q
  {
    var q', r' := (q * d + r) / d, (q * d + r) % d;
    assert q' * d + r' == q * d + r;
    assert q' > q ==> q' * d >= (q + 1) * d;
    assert q' < q ==> (q' + 1) * d <= q * d;
  }

  lemma DivStep(n: nat, d: nat)
    requires d > 0
    ensures (n + d) / d == n / d + 1
  {
    assert n + d == (n / d + 1) * d + n % d;
    QuotientUnique(n / d + 1, n % d, d);
  }

  function Pow2(k: nat): nat {
    if k == 0 then 1 else 2 * Pow2(k - 1)
  }

  /** Bitwise and. */
  function And(a: nat, b: nat): nat {
    if a == 0 then 0 else 2 * And(a / 2, b / 2) + if a % 2 == 1 && b % 2 == 1 then 1 else 0
  }

  /** Masking with all ones changes nothing. */
  lemma {:induction false} AndOnes(a: nat, k: nat)
    requires a < Pow2(k)
    ensures And(a, Pow2(k) - 1) == a
  {
    if a == 0 {
    } else {
      assert Pow2(k) - 1 == 2 * (Pow2(k - 1) - 1) + 1;
      AndOnes(a / 2, k - 1);
    }
  }

  /** A mask whose lowest bit is clear acts on the remaining bits. */
  lemma AndEven(a: nat, m: nat)
    ensures And(a, 2 * m) == 2 * And(a / 2, m)
  {
  }
}
