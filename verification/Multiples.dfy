/** Facts about multiples that the framing proofs use. */
module Multiples {
  lemma MulStep(k: nat, m: nat)
    requires k > 0
    ensures k * m == (k - 1) * m + m
  {
  }

  lemma MulPositive(k: nat, m: nat)
    requires k > 0
    ensures k * m >= m
  {
    MulStep(k, m);
  }

  lemma Distribute(p: nat, q: nat, m: nat)
    requires p <= q
    ensures q * m == p * m + (q - p) * m
  {
  }

  lemma ModIs(n: nat, m: nat, q: nat, r: nat)
    requires m > 0 && n == q * m + r && r < m
    ensures n % m == r
  {
    var p := n / m;
    var s := n % m;
    assert n == p * m + s;
    if p < q {
      Distribute(p, q, m);
      MulPositive(q - p, m);
    } else if q < p {
      Distribute(q, p, m);
      MulPositive(p - q, m);
    }
  }

  lemma ModMinus(n: nat, m: nat)
    requires 0 < m <= n
    ensures n % m == (n - m) % m
  {
    var q, r := (n - m) / m, (n - m) % m;
    assert n - m == q * m + r;
    MulStep(q + 1, m);
    ModIs(n, m, q + 1, r);
  }

  lemma ModOfMultiple(k: nat, m: nat)
    requires m > 0
    ensures k * m % m == 0
  {
    ModIs(k * m, m, k, 0);
  }

  /** n times m, counted up: n packets of m bytes. */
  function Times(n: nat, m: nat): nat {
    if n == 0 then 0 else Times(n - 1, m) + m
  }

  lemma {:induction false} TimesIsProduct(n: nat, m: nat)
    ensures Times(n, m) == n * m
  {
    if n > 0 {
      TimesIsProduct(n - 1, m);
      MulStep(n, m);
    }
  }

  lemma TimesIsMultiple(n: nat, m: nat)
    requires n > 0 && m > 0
    ensures Times(n, m) >= m && Times(n, m) % m == 0
  {
    TimesIsProduct(n, m);
    MulPositive(n, m);
    ModOfMultiple(n, m);
  }

  function Max(a: nat, b: nat): nat {
    if a < b then b else a
  }

  function Min(a: nat, b: nat): nat {
    if a < b then a else b
  }

  /** The packets of a transfer of the stream adapters: `div_ceil` and at least one. */
  function PacketsFor(size: nat, mps: nat): nat
    requires mps > 0
  {
    Max((size + mps - 1) / mps, 1)
  }

  /** The size is rounded up to the next multiple of the packet size, and is never zero. */
  lemma RoundsUp(size: nat, mps: nat)
    requires mps > 0
    ensures var n := PacketsFor(size, mps);
            n > 0 && size <= Times(n, mps) && (n > 1 ==> Times(n - 1, mps) < size)
  {
    var n := PacketsFor(size, mps);
    var q, r := (size + mps - 1) / mps, (size + mps - 1) % mps;
    assert size + mps - 1 == q * mps + r;
    TimesIsProduct(n, mps);
    TimesIsProduct(n - 1, mps);
    MulStep(n, mps);
  }
}
