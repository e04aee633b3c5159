/**
 Whole multiples and quotients by recursion, so that proofs about blocks of equal
 size stay in linear arithmetic, with the lemmas that tie them to `*`, `/` and `%`.
 */
module Arith {

  function Times(k: nat, n: nat): nat {
    if k == 0 then 0 else Times(k - 1, n) + n
  }

  function Quot(p: nat, n: nat): nat
    requires n > 0
  {
    if p < n then 0 else 1 + Quot(p - n, n)
  }

  lemma {:induction false} TimesIsMul(k: nat, n: nat)
    ensures Times(k, n) == k * n
  {
    if k > 0 {
      TimesIsMul(k - 1, n);
      assert k * n == (k - 1) * n + n;
    }
  }

  lemma {:induction false} TimesLe(a: nat, b: nat, n: nat)
    requires a <= b
    ensures Times(a, n) <= Times(b, n)
    ensures a < b ==> Times(a, n) + n <= Times(b, n)
    decreases b
  {
    if a < b {
      TimesLe(a, b - 1, n);
    }
  }

  lemma {:induction false} QuotOf(k: nat, r: nat, n: nat)
    requires r < n
    ensures Quot(Times(k, n) + r, n) == k
  {
    if k > 0 {
      QuotOf(k - 1, r, n);
    }
  }

  lemma {:induction false} QuotBounds(p: nat, n: nat)
    requires n > 0
    ensures Times(Quot(p, n), n) <= p < Times(Quot(p, n), n) + n
  {
    if p >= n {
      QuotBounds(p - n, n);
      TimesShift(Quot(p - n, n), n);
    }
  }

  lemma TimesShift(k: nat, n: nat)
    ensures Times(k + 1, n) == n + Times(k, n)
  {
  }

  lemma MulLe(a: int, b: int, n: nat)
    requires a <= b
    ensures a * n <= b * n
  {
    assert b * n - a * n == (b - a) * n;
  }

  lemma MulSucc(a: int, n: int)
    ensures (a + 1) * n == a * n + n
  {
  }

  /** The recursive quotient and its remainder are the built-in ones. */
  lemma QuotIsDiv(p: nat, n: nat)
    requires n > 0
    ensures Quot(p, n) == p / n
    ensures p == Times(Quot(p, n), n) + p % n
  {
    var k := Quot(p, n);
    var q := p / n;
    QuotBounds(p, n);
    TimesIsMul(k, n);
    assert p == q * n + p % n;
    if q < k {
      MulSucc(q, n);
      MulLe(q + 1, k, n);
      assert false;
    }
    if k < q {
      MulSucc(k, n);
      MulLe(k + 1, q, n);
      assert false;
    }
  }

  lemma DivUnique(a: nat, d: nat, q: nat, r: nat)
    requires a == q * d + r && r < d
    ensures a / d == q && a % d == r
  {
    TimesIsMul(q, d);
    QuotOf(q, r, d);
    QuotIsDiv(a, d);
  }

  lemma DivDiv(a: nat, b: nat, c: nat)
    requires b > 0 && c > 0
    ensures b * c > 0 && a / b / c == a / (b * c)
  {
    var q, r := a / b, a % b;
    var p, s := q / c, q % c;
    assert a == q * b + r && q == p * c + s;
    assert q * b == p * (b * c) + s * b by {
      assert q * b == p * c * b + s * b;
    }
    MulLe(s + 1, c, b);
    MulSucc(s, b);
    DivUnique(a, b * c, p, s * b + r);
  }

  lemma ModOf(k: nat, r: nat, n: nat)
    requires r < n
    ensures (Times(k, n) + r) % n == r
  {
    QuotOf(k, r, n);
    QuotIsDiv(Times(k, n) + r, n);
  }
}
