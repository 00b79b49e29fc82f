/** Integer facts used to decode flat table positions and to reorder finite sums. */
module Arith {

  /** Euclidean division recovers quotient and remainder of `q * n + r`. */
  lemma DivMod(q: nat, r: nat, n: nat)
    requires r < n
    ensures (q * n + r) / n == q
    ensures (q * n + r) % n == r
  {
    var k := q * n + r;
    var d := k / n - q;
    assert d * n == r - k % n;
    if d >= 1 {
      MulLeft(1, d, n);
    } else if d <= -1 {
      MulLeft(-d, 1, n);
    }
  }

  lemma MulLeft(a: int, b: int, n: nat)
    requires a <= b
    ensures a * n <= b * n
  {
  }

  /** A position inside an `n`-by-`m` grid lies below `n * m`. */
  lemma GridBound(i: nat, n: nat, j: nat, m: nat)
    requires i < n && j < m
    ensures i * m + j < n * m
  {
    MulLeft(i + 1, n, m);
  }

  /** A number below `m * n` has quotient below `m`. */
  lemma DivBound(k: nat, n: nat, m: nat)
    requires n > 0 && k < m * n
    ensures k / n < m
  {
    if k / n >= m {
      MulLeft(m, k / n, n);
    }
  }

  /** Quotient and remainder determine the number. */
  lemma DivModInjective(i: nat, j: nat, n: nat)
    requires n > 0 && i / n == j / n && i % n == j % n
    ensures i == j
  {
    assert i == (i / n) * n + i % n;
    assert j == (j / n) * n + j % n;
  }

  /** Dividing by `p` and then by `t` is dividing by `p * t`. */
  lemma DivDiv(k: nat, p: nat, t: nat)
    requires p > 0 && t > 0
    ensures p * t > 0
    ensures k / (p * t) == (k / p) / t
  {
    var q, r := k / p, k % p;
    var a, b := q / t, q % t;
    assert k == q * p + r;
    assert q == a * t + b;
    calc {
      k;
      (a * t + b) * p + r;
      a * (p * t) + (b * p + r);
    }
    GridBound(b, t, r, p);
    DivMod(a, b * p + r, p * t);
  }

  /** The sum f(0) + ... + f(n - 1). */
  function Sum(n: nat, f: nat -> int): int
  {
    if n == 0 then 0 else Sum(n - 1, f) + f(n - 1)
  }

  /** Sums of functions that agree below `n` are equal. */
  lemma {:induction false} SumExt(n: nat, f: nat -> int, g: nat -> int)
    requires forall i :: 0 <= i < n ==> f(i) == g(i)
    ensures Sum(n, f) == Sum(n, g)
  {
    if n > 0 {
      SumExt(n - 1, f, g);
    }
  }

  /** A sum of pointwise sums splits. */
  lemma {:induction false} SumAdd(n: nat, f: nat -> int, g: nat -> int, h: nat -> int)
    requires forall i :: 0 <= i < n ==> h(i) == f(i) + g(i)
    ensures Sum(n, h) == Sum(n, f) + Sum(n, g)
  {
    if n > 0 {
      SumAdd(n - 1, f, g, h);
    }
  }

  /** A term-wise bound carries over to the sums. */
  lemma {:induction false} SumLe(n: nat, f: nat -> int, g: nat -> int)
    requires forall i :: 0 <= i < n ==> f(i) <= g(i)
    ensures Sum(n, f) <= Sum(n, g)
  {
    if n > 0 {
      SumLe(n - 1, f, g);
    }
  }

  lemma {:induction false} SumZero(n: nat)
    ensures Sum(n, (i: nat) => 0) == 0
  {
    if n > 0 {
      SumZero(n - 1);
    }
  }

  /** Summing a grid by rows or by columns gives the same total. */
  lemma {:induction false} SumSwap(rows: nat, cols: nat, g: (nat, nat) -> int)
    ensures Sum(rows, (i: nat) => Sum(cols, (j: nat) => g(i, j))) == Sum(cols, (j: nat) => Sum(rows, (i: nat) => g(i, j)))
  {
    if rows > 0 {
      var byRow := (i: nat) => Sum(cols, (j: nat) => g(i, j));
      var before := (j: nat) => Sum(rows - 1, (i: nat) => g(i, j));
      var last := (j: nat) => g(rows - 1, j);
      var byCol := (j: nat) => Sum(rows, (i: nat) => g(i, j));
      SumSwap(rows - 1, cols, g);
      assert Sum(rows - 1, byRow) == Sum(cols, before);
      assert byRow(rows - 1) == Sum(cols, last);
      assert Sum(rows, byRow) == Sum(rows - 1, byRow) + byRow(rows - 1);
      SumAdd(cols, before, last, byCol);
      assert Sum(rows, byRow) == Sum(cols, byCol);
    } else {
      SumExt(cols, (j: nat) => Sum(rows, (i: nat) => g(i, j)), (j: nat) => 0);
      SumZero(cols);
    }
  }
}
