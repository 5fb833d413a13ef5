/** Small matrices and the multiply-accumulate on them, without regard to where they come from. */
module TileMath {

  type Matrix = seq<seq<int>>
  type Values = (int, int) -> int

  predicate Shaped(x: Matrix, rows: nat, cols: nat) {
    |x| == rows && forall r :: 0 <= r < rows ==> |x[r]| == cols
  }

  // x holds f over rows x cols.
  ghost predicate Holds(x: Matrix, rows: nat, cols: nat, f: Values) {
    Shaped(x, rows, cols) && forall r, c :: 0 <= r < rows && 0 <= c < cols ==> x[r][c] == f(r, c)
  }

  // The right operand is stored by columns when it is transposed, by rows otherwise.
  ghost predicate HoldsB(x: Matrix, transB: bool, rows: nat, cols: nat, f: Values) {
    if transB then Shaped(x, cols, rows) && forall r, c :: 0 <= r < rows && 0 <= c < cols ==> x[c][r] == f(r, c)
    else Holds(x, rows, cols, f)
  }

  // The values of f from column (row) x on.
  function FromColumn(f: Values, x: int): Values {
    (r, l) => f(r, x + l)
  }

  function FromRow(f: Values, x: int): Values {
    (l, c) => f(x + l, c)
  }

  function Columns(x: Matrix, lo: nat, n: nat): Matrix
    requires forall r :: 0 <= r < |x| ==> lo + n <= |x[r]|
  {
    seq(|x|, r requires 0 <= r < |x| => x[r][lo..lo + n])
  }

  function SliceB(x: Matrix, transB: bool, lo: nat, n: nat): Matrix
    requires if transB then forall r :: 0 <= r < |x| ==> lo + n <= |x[r]| else lo + n <= |x|
  {
    if transB then Columns(x, lo, n) else x[lo..lo + n]
  }

  lemma ColumnsHold(x: Matrix, rows: nat, cols: nat, f: Values, lo: nat, n: nat)
    requires Holds(x, rows, cols, f) && lo + n <= cols
    ensures Holds(Columns(x, lo, n), rows, n, FromColumn(f, lo))
  {
  }

  lemma SliceBHolds(x: Matrix, transB: bool, rows: nat, cols: nat, f: Values, lo: nat, n: nat)
    requires HoldsB(x, transB, rows, cols, f) && lo + n <= rows
    ensures HoldsB(SliceB(x, transB, lo, n), transB, n, cols, FromRow(f, lo))
  {
  }

  // Sum over l in lo .. hi of a(r, l) * b(l, c).
  function Sum(a: Values, b: Values, r: int, c: int, lo: int, hi: int): int
    decreases hi - lo
  {
    if hi <= lo then 0 else Sum(a, b, r, c, lo, hi - 1) + a(r, hi - 1) * b(hi - 1, c)
  }

  lemma {:induction false} SumJoins(a: Values, b: Values, r: int, c: int, lo: int, mid: int, hi: int)
    requires lo <= mid <= hi
    ensures Sum(a, b, r, c, lo, mid) + Sum(a, b, r, c, mid, hi) == Sum(a, b, r, c, lo, hi)
    decreases hi - mid
  {
    if mid < hi {
      SumJoins(a, b, r, c, lo, mid, hi - 1);
    }
  }

  // Sum over l below n of a[r][l] * b[l][c], on stored operands.
  function PartDot(a: Matrix, b: Matrix, transB: bool, r: nat, c: nat, n: nat): int
    requires r < |a| && n <= |a[r]|
    requires if transB then c < |b| && n <= |b[c]| else n <= |b| && forall l :: 0 <= l < n ==> c < |b[l]|
  {
    if n == 0 then 0
    else PartDot(a, b, transB, r, c, n - 1) + a[r][n - 1] * (if transB then b[c][n - 1] else b[n - 1][c])
  }

  lemma {:induction false} PartDotIsSum(a: Matrix, b: Matrix, transB: bool, rows: nat, cols: nat, k: nat,
                                        fa: Values, fb: Values, x: nat, r: nat, c: nat, n: nat)
    requires Holds(a, rows, k, FromColumn(fa, x)) && HoldsB(b, transB, k, cols, FromRow(fb, x))
    requires r < rows && c < cols && n <= k
    ensures PartDot(a, b, transB, r, c, n) == Sum(fa, fb, r, c, x, x + n)
  {
    if n > 0 {
      PartDotIsSum(a, b, transB, rows, cols, k, fa, fb, x, r, c, n - 1);
    }
  }

  // Mmad: multiplies the L0 operands into the accumulator, over k values.
  function Mad(acc: Matrix, a: Matrix, b: Matrix, transB: bool, m: nat, n: nat, k: nat, initC: bool): Matrix
    requires Shaped(a, m, k) && (if transB then Shaped(b, n, k) else Shaped(b, k, n))
    requires initC || Shaped(acc, m, n)
  {
    seq(m, r requires 0 <= r < m => seq(n, c requires 0 <= c < n =>
      (if initC then 0 else acc[r][c]) + PartDot(a, b, transB, r, c, k)))
  }

  // What the accumulator holds when `base` was there before and x values of the block are done.
  function Accumulated(base: Values, fa: Values, fb: Values, x: int): Values {
    (r, c) => base(r, c) + Sum(fa, fb, r, c, 0, x)
  }

  // Multiplying n more values of a block into the accumulator.
  lemma MadStep(acc: Matrix, a: Matrix, b: Matrix, transB: bool, m: nat, n: nat, k: nat, initC: bool,
                base: Values, fa: Values, fb: Values, x: nat)
    requires Holds(a, m, k, FromColumn(fa, x)) && HoldsB(b, transB, k, n, FromRow(fb, x))
    requires if initC then x == 0 && forall r, c :: 0 <= r < m && 0 <= c < n ==> base(r, c) == 0
             else Holds(acc, m, n, Accumulated(base, fa, fb, x))
    ensures Holds(Mad(acc, a, b, transB, m, n, k, initC), m, n, Accumulated(base, fa, fb, x + k))
  {
    var res := Mad(acc, a, b, transB, m, n, k, initC);
    forall r, c | 0 <= r < m && 0 <= c < n
      ensures res[r][c] == Accumulated(base, fa, fb, x + k)(r, c)
    {
      PartDotIsSum(a, b, transB, m, n, k, fa, fb, x, r, c, k);
      SumJoins(fa, fb, r, c, 0, x, x + k);
    }
  }
}
