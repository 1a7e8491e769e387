/** Induction over numbers, and finite sums of reals. */
module Sums {

  /** What holds at 0 and is handed on from each number to the next holds up to the last one. */
  lemma {:induction false} CountUp(ok: nat -> bool, n: nat)
    requires ok(0) && forall k: nat :: k < n && ok(k) ==> ok(k + 1)
    ensures ok(n)
  {
    if n > 0 {
      CountUp(ok, n - 1);
      assert ok(n - 1);
    }
  }

  function SumTo(f: nat -> real, n: nat): real {
    if n == 0 then 0.0 else SumTo(f, n - 1) + f(n - 1)
  }

  lemma {:induction false} SumIsZero(f: nat -> real, n: nat)
    requires forall i: nat :: i < n ==> f(i) == 0.0
    ensures SumTo(f, n) == 0.0
  {
    if n > 0 {
      SumIsZero(f, n - 1);
    }
  }

  /** A sum of terms that are not negative is at least each of them. */
  lemma {:induction false} SumCounts(f: nat -> real, n: nat, k: nat)
    requires forall i: nat :: i < n ==> f(i) >= 0.0
    ensures SumTo(f, n) >= 0.0
    ensures k < n ==> SumTo(f, n) >= f(k)
  {
    if n > 0 {
      SumCounts(f, n - 1, k);
    }
  }

  /** Terms that are not positive and add up to nothing are nothing. */
  lemma {:induction false} SumCountsDown(f: nat -> real, n: nat, k: nat)
    requires forall i: nat :: i < n ==> f(i) <= 0.0
    ensures SumTo(f, n) <= 0.0
    ensures k < n ==> SumTo(f, n) <= f(k)
  {
    if n > 0 {
      SumCountsDown(f, n - 1, k);
    }
  }

  lemma {:induction false} SumOfSums(f: nat -> real, g: nat -> real, h: nat -> real, n: nat)
    requires forall i: nat :: i < n ==> h(i) == f(i) + g(i)
    ensures SumTo(h, n) == SumTo(f, n) + SumTo(g, n)
  {
    if n > 0 {
      SumOfSums(f, g, h, n - 1);
    }
  }

  lemma {:induction false} SumsAgree(f: nat -> real, g: nat -> real, n: nat)
    requires forall i: nat :: i < n ==> f(i) == g(i)
    ensures SumTo(f, n) == SumTo(g, n)
  {
    if n > 0 {
      SumsAgree(f, g, n - 1);
    }
  }

  /** Only one term counts. */
  lemma {:induction false} SumOfOne(f: nat -> real, n: nat, k: nat)
    requires k < n && forall i: nat :: i < n && i != k ==> f(i) == 0.0
    ensures SumTo(f, n) == f(k)
  {
    if k == n - 1 {
      SumIsZero(f, n - 1);
    } else {
      SumOfOne(f, n - 1, k);
    }
  }

  /** If one quantity moves with another but for three parts at each step, then over all steps it
      differs from it by their sums. */
  lemma {:induction false} DriftApart(
    f: nat -> real, g: nat -> real, a: nat -> real, b: nat -> real, c: nat -> real, n: nat)
    requires f(0) == g(0)
    requires forall k: nat :: k < n ==> f(k + 1) - f(k) == g(k + 1) - g(k) + a(k) + b(k) + c(k)
    ensures f(n) == g(n) + SumTo(a, n) + SumTo(b, n) + SumTo(c, n)
  {
    if n > 0 {
      DriftApart(f, g, a, b, c, n - 1);
      assert f(n - 1 + 1) - f(n - 1) == g(n - 1 + 1) - g(n - 1) + a(n - 1) + b(n - 1) + c(n - 1);
    }
  }

  function Row(m: (nat, nat) -> real, i: nat): nat -> real {
    (j: nat) => m(i, j)
  }

  function Column(m: (nat, nat) -> real, j: nat): nat -> real {
    (i: nat) => m(i, j)
  }

  /** The sums of the first `columns` entries of each row. */
  function RowSums(m: (nat, nat) -> real, columns: nat): nat -> real {
    (i: nat) => SumTo(Row(m, i), columns)
  }

  /** If every column adds up to nothing, so do the rows together. */
  lemma {:induction false} ColumnsCancel(m: (nat, nat) -> real, rows: nat, columns: nat)
    requires forall j: nat :: j < columns ==> SumTo(Column(m, j), rows) == 0.0
    ensures SumTo(RowSums(m, columns), rows) == 0.0
  {
    if columns == 0 {
      SumIsZero(RowSums(m, 0), rows);
    } else {
      ColumnsCancel(m, rows, columns - 1);
      var before, last, all := RowSums(m, columns - 1), Column(m, columns - 1), RowSums(m, columns);
      forall i: nat | i < rows ensures all(i) == before(i) + last(i) {
        assert Row(m, i)(columns - 1) == m(i, columns - 1);
      }
      SumOfSums(before, last, all, rows);
    }
  }
}
