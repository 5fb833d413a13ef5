/** The loads of the ping-pong matmul kernel: which part of A and B each address range is. */
module PpMatmulTiles {
  import opened Arith
  import opened Swizzle
  import opened MatmulSpec
  import opened NzFormat
  import opened TileMath

  // The last of `rows` rows of `cols` values, `stride` apart, ends inside a buffer of `size`.
  predicate Fits(size: nat, offset: nat, rows: nat, cols: nat, stride: nat) {
    rows > 0 && cols > 0 && offset + (rows - 1) * stride + cols <= size
  }

  function Elem(gm: seq<int>, offset: nat, rows: nat, cols: nat, stride: nat, r: nat, c: nat): int
    requires Fits(|gm|, offset, rows, cols, stride) && r < rows && c < cols
  {
    MulOrder(r, rows - 1, stride);
    MulOrder(0, r, stride);
    gm[offset + r * stride + c]
  }

  // CopyGmToCbuf: copies `rows` rows of `cols` values that lie `stride` apart.
  function CopyGmToCbuf(gm: seq<int>, offset: nat, rows: nat, cols: nat, stride: nat): Matrix
    requires Fits(|gm|, offset, rows, cols, stride)
  {
    seq(rows, r requires 0 <= r < rows => seq(cols, c requires 0 <= c < cols => Elem(gm, offset, rows, cols, stride, r, c)))
  }

  // The values of A from row i0 and k index l0 on, of B from l0 and column j0 on, and of the accumulator
  // of the tile at (i0, j0) after t k blocks.
  ghost function ValuesA(pr: Problem, i0: int, b: int, l0: int): Values {
    (r, l) => pr.A(i0 + r, b, l0 + l)
  }

  ghost function ValuesB(pr: Problem, b: int, l0: int, j0: int): Values {
    (l, c) => pr.B(b, l0 + l, j0 + c)
  }

  ghost function ValuesC(pr: Problem, core: nat, i0: int, b: int, j0: int, t: nat): Values
    requires pr.p.kLoop > 0
  {
    (r, c) => pr.Rotated(core, i0 + r, b, j0 + c, t)
  }

  method LoadA(pr: Problem, i0: nat, b: nat, l0: nat, rows: nat, cols: nat) returns (x: Matrix)
    requires pr.Valid() && b < pr.p.batch && rows > 0 && cols > 0
    requires i0 + rows <= pr.p.m && l0 + cols <= pr.p.k
    ensures Holds(x, rows, cols, ValuesA(pr, i0, b, l0))
  {
    AFits(pr, i0, b, l0, rows, cols);
    var offset := i0 * pr.p.batch * pr.p.k + b * pr.p.k + l0;
    x := CopyGmToCbuf(pr.gmA, offset, rows, cols, pr.p.k * pr.p.batch);
    forall r, l | 0 <= r < rows && 0 <= l < cols
      ensures x[r][l] == ValuesA(pr, i0, b, l0)(r, l)
    {
      ElemOfA(pr, i0, b, l0, rows, cols, r, l);
    }
  }

  // One row further is one stride further.
  lemma AddrOfA(p: Tiling, i0: nat, b: nat, l0: nat, r: nat, l: nat)
    ensures i0 * p.batch * p.k + b * p.k + l0 >= 0
    ensures i0 * p.batch * p.k + b * p.k + l0 + r * (p.k * p.batch) + l == AddrA(p, i0 + r, b, l0 + l)
  {
    StrideSum(i0, r, p.batch, p.k);
  }

  // (i + r) rows of size Y * Z, written as the kernel writes the two parts.
  lemma StrideSum(i: nat, r: nat, Y: nat, Z: nat)
    ensures i * Y * Z + r * (Z * Y) == (i + r) * (Y * Z)
    ensures i * Y * Z >= 0
  {
    MulAssoc(i, Y, Z);
    Distribute(i, r, Y * Z);
    Commute(Y, Z);
  }

  lemma AFits(pr: Problem, i0: nat, b: nat, l0: nat, rows: nat, cols: nat)
    requires pr.Valid() && b < pr.p.batch && rows > 0 && cols > 0
    requires i0 + rows <= pr.p.m && l0 + cols <= pr.p.k
    ensures i0 * pr.p.batch * pr.p.k + b * pr.p.k + l0 >= 0
    ensures Fits(|pr.gmA|, i0 * pr.p.batch * pr.p.k + b * pr.p.k + l0, rows, cols, pr.p.k * pr.p.batch)
  {
    AddrOfA(pr.p, i0, b, l0, rows - 1, cols - 1);
    AddrBounds(pr.p, i0 + (rows - 1), b, l0 + (cols - 1), 0);
  }

  lemma ElemOfA(pr: Problem, i0: nat, b: nat, l0: nat, rows: nat, cols: nat, r: nat, l: nat)
    requires pr.Valid() && b < pr.p.batch && r < rows && l < cols
    requires i0 + rows <= pr.p.m && l0 + cols <= pr.p.k
    ensures i0 * pr.p.batch * pr.p.k + b * pr.p.k + l0 >= 0
    ensures Fits(|pr.gmA|, i0 * pr.p.batch * pr.p.k + b * pr.p.k + l0, rows, cols, pr.p.k * pr.p.batch)
    ensures Elem(pr.gmA, i0 * pr.p.batch * pr.p.k + b * pr.p.k + l0, rows, cols, pr.p.k * pr.p.batch, r, l)
         == pr.A(i0 + r, b, l0 + l)
  {
    AFits(pr, i0, b, l0, rows, cols);
    AddrOfA(pr.p, i0, b, l0, r, l);
    AddrBounds(pr.p, i0 + r, b, l0 + l, 0);
  }

  // The last of `rows` x `cols` entries in NZ format ends inside a buffer of `size`.
  predicate NzFits(size: nat, offset: nat, rows: nat, cols: nat, height: nat) {
    rows > 0 && cols > 0 && forall r, c :: 0 <= r < rows && 0 <= c < cols ==> offset + NzPlace(r, c, height) < size
  }

  // CopyGmToCbuf from NZ to NZ: the groups of sixteen columns lie `height` rows apart.
  function CopyNzToCbuf(gm: seq<int>, offset: nat, rows: nat, cols: nat, height: nat): Matrix
    requires NzFits(|gm|, offset, rows, cols, height)
  {
    seq(rows, r requires 0 <= r < rows => seq(cols, c requires 0 <= c < cols => gm[offset + NzPlace(r, c, height)]))
  }

  // B, stored by columns when it is transposed, plain or in NZ format.
  method LoadB(pr: Problem, b: nat, l0: nat, j0: nat, k: nat, n: nat) returns (x: Matrix)
    requires pr.Valid() && b < pr.p.batch && k > 0 && n > 0
    requires l0 + k <= pr.p.k && j0 + n <= pr.p.n && l0 % 16 == 0 && j0 % 16 == 0
    ensures HoldsB(x, pr.p.transB, k, n, ValuesB(pr, b, l0, j0))
  {
    if pr.p.nzB {
      x := LoadNzB(pr, b, l0, j0, k, n);
    } else {
      x := LoadNdB(pr, b, l0, j0, k, n);
    }
  }

  method LoadNdB(pr: Problem, b: nat, l0: nat, j0: nat, k: nat, n: nat) returns (x: Matrix)
    requires pr.Valid() && !pr.p.nzB && b < pr.p.batch && k > 0 && n > 0
    requires l0 + k <= pr.p.k && j0 + n <= pr.p.n
    ensures HoldsB(x, pr.p.transB, k, n, ValuesB(pr, b, l0, j0))
  {
    var p := pr.p;
    BFits(pr, b, l0, j0, k, n);
    if p.transB {
      x := CopyGmToCbuf(pr.gmB, b * p.k * p.n + j0 * p.k + l0, n, k, p.k);
    } else {
      x := CopyGmToCbuf(pr.gmB, b * p.k * p.n + l0 * p.n + j0, k, n, p.n);
    }
    forall l, c | 0 <= l < k && 0 <= c < n
      ensures (if p.transB then x[c][l] else x[l][c]) == ValuesB(pr, b, l0, j0)(l, c)
    {
      ElemOfB(pr, b, l0, j0, k, n, l, c);
    }
  }

  method LoadNzB(pr: Problem, b: nat, l0: nat, j0: nat, k: nat, n: nat) returns (x: Matrix)
    requires pr.Valid() && pr.p.nzB && b < pr.p.batch && k > 0 && n > 0
    requires l0 + k <= pr.p.k && j0 + n <= pr.p.n && l0 % 16 == 0 && j0 % 16 == 0
    ensures HoldsB(x, pr.p.transB, k, n, ValuesB(pr, b, l0, j0))
  {
    var p := pr.p;
    NzBFits(pr, b, l0, j0, k, n);
    var offset := NzOffset(p, b, l0, j0);
    if p.transB {
      x := CopyNzToCbuf(pr.gmB, offset, n, k, RoundUp16(p.n));
    } else {
      x := CopyNzToCbuf(pr.gmB, offset, k, n, RoundUp16(p.k));
    }
    forall l, c | 0 <= l < k && 0 <= c < n
      ensures (if p.transB then x[c][l] else x[l][c]) == ValuesB(pr, b, l0, j0)(l, c)
    {
      ElemOfNzB(pr, b, l0, j0, l, c);
    }
  }

  // Where the kernel starts to read the part of B at (l0, j0).
  function NzOffset(p: Tiling, b: nat, l0: nat, j0: nat): int {
    var k16, n16 := RoundUp16(p.k), RoundUp16(p.n);
    if p.transB then b * k16 * n16 + j0 * 16 + l0 * n16 else b * k16 * n16 + l0 * 16 + j0 * k16
  }

  function NzEntry(p: Tiling, l: nat, c: nat): nat {
    if p.transB then NzPlace(c, l, RoundUp16(p.n)) else NzPlace(l, c, RoundUp16(p.k))
  }

  lemma AddrOfNzB(p: Tiling, b: nat, l0: nat, j0: nat, l: nat, c: nat)
    requires p.nzB && l0 % 16 == 0 && j0 % 16 == 0
    ensures NzOffset(p, b, l0, j0) >= 0
    ensures AddrB(p, b, l0 + l, j0 + c) == NzOffset(p, b, l0, j0) + NzEntry(p, l, c)
  {
    var k16, n16 := RoundUp16(p.k), RoundUp16(p.n);
    MulAssoc(b, k16, n16);
    MulOrder(0, b, k16 * n16);
    NzTile(j0, c, l0, l, n16);
    NzTile(l0, l, j0, c, k16);
  }

  lemma ElemOfNzB(pr: Problem, b: nat, l0: nat, j0: nat, l: nat, c: nat)
    requires pr.Valid() && pr.p.nzB && b < pr.p.batch && l0 + l < pr.p.k && j0 + c < pr.p.n
    requires l0 % 16 == 0 && j0 % 16 == 0
    ensures var at := NzOffset(pr.p, b, l0, j0) + NzEntry(pr.p, l, c);
            0 <= at < |pr.gmB| && pr.gmB[at] == pr.B(b, l0 + l, j0 + c)
  {
    AddrOfNzB(pr.p, b, l0, j0, l, c);
    AddrBounds(pr.p, 0, b, l0 + l, j0 + c);
  }

  lemma NzBFits(pr: Problem, b: nat, l0: nat, j0: nat, k: nat, n: nat)
    requires pr.Valid() && pr.p.nzB && b < pr.p.batch && k > 0 && n > 0
    requires l0 + k <= pr.p.k && j0 + n <= pr.p.n && l0 % 16 == 0 && j0 % 16 == 0
    ensures NzOffset(pr.p, b, l0, j0) >= 0
    ensures if pr.p.transB then NzFits(|pr.gmB|, NzOffset(pr.p, b, l0, j0), n, k, RoundUp16(pr.p.n))
            else NzFits(|pr.gmB|, NzOffset(pr.p, b, l0, j0), k, n, RoundUp16(pr.p.k))
  {
    AddrOfNzB(pr.p, b, l0, j0, 0, 0);
    if pr.p.transB {
      forall c, l | 0 <= c < n && 0 <= l < k
        ensures NzOffset(pr.p, b, l0, j0) + NzPlace(c, l, RoundUp16(pr.p.n)) < |pr.gmB|
      {
        ElemOfNzB(pr, b, l0, j0, l, c);
      }
    } else {
      forall l, c | 0 <= l < k && 0 <= c < n
        ensures NzOffset(pr.p, b, l0, j0) + NzPlace(l, c, RoundUp16(pr.p.k)) < |pr.gmB|
      {
        ElemOfNzB(pr, b, l0, j0, l, c);
      }
    }
  }

  lemma AddrOfB(p: Tiling, b: nat, l0: nat, j0: nat, l: nat, c: nat)
    requires !p.nzB
    ensures b * p.k * p.n + j0 * p.k + l0 >= 0 && b * p.k * p.n + l0 * p.n + j0 >= 0
    ensures AddrB(p, b, l0 + l, j0 + c)
         == if p.transB then b * p.k * p.n + j0 * p.k + l0 + c * p.k + l
            else b * p.k * p.n + l0 * p.n + j0 + l * p.n + c
  {
    MulAssoc(b, p.k, p.n);
    MulOrder(0, b, p.k * p.n);
    MulOrder(0, j0, p.k);
    MulOrder(0, l0, p.n);
    Distribute(j0, c, p.k);
    Distribute(l0, l, p.n);
  }

  lemma BFits(pr: Problem, b: nat, l0: nat, j0: nat, k: nat, n: nat)
    requires pr.Valid() && !pr.p.nzB && b < pr.p.batch && k > 0 && n > 0 && l0 + k <= pr.p.k && j0 + n <= pr.p.n
    ensures var p := pr.p;
            && b * p.k * p.n + j0 * p.k + l0 >= 0 && b * p.k * p.n + l0 * p.n + j0 >= 0
            && if p.transB then Fits(|pr.gmB|, b * p.k * p.n + j0 * p.k + l0, n, k, p.k)
               else Fits(|pr.gmB|, b * p.k * p.n + l0 * p.n + j0, k, n, p.n)
  {
    AddrOfB(pr.p, b, l0, j0, k - 1, n - 1);
    AddrBounds(pr.p, 0, b, l0 + (k - 1), j0 + (n - 1));
  }

  lemma ElemOfB(pr: Problem, b: nat, l0: nat, j0: nat, k: nat, n: nat, l: nat, c: nat)
    requires pr.Valid() && !pr.p.nzB && b < pr.p.batch && l < k && c < n && l0 + k <= pr.p.k && j0 + n <= pr.p.n
    ensures var p := pr.p;
            && b * p.k * p.n + j0 * p.k + l0 >= 0 && b * p.k * p.n + l0 * p.n + j0 >= 0
            && if p.transB then
                 Fits(|pr.gmB|, b * p.k * p.n + j0 * p.k + l0, n, k, p.k)
                 && Elem(pr.gmB, b * p.k * p.n + j0 * p.k + l0, n, k, p.k, c, l) == pr.B(b, l0 + l, j0 + c)
               else
                 Fits(|pr.gmB|, b * p.k * p.n + l0 * p.n + j0, k, n, p.n)
                 && Elem(pr.gmB, b * p.k * p.n + l0 * p.n + j0, k, n, p.n, l, c) == pr.B(b, l0 + l, j0 + c)
  {
    BFits(pr, b, l0, j0, k, n);
    AddrOfB(pr.p, b, l0, j0, l, c);
    AddrBounds(pr.p, 0, b, l0 + l, j0 + c);
  }

  // The block done in step t is one more step of the rotation.
  lemma BlockDone(pr: Problem, core: nat, i0: int, b: int, j0: int, t: nat, kb: nat, l0: nat, r: int, c: int)
    requires pr.p.kLoop > 0 && kb == pr.p.ShuffleK(core, t) && l0 == kb * pr.p.k0
    ensures Accumulated(ValuesC(pr, core, i0, b, j0, t), ValuesA(pr, i0, b, l0), ValuesB(pr, b, l0, j0),
                        pr.p.KActual(kb))(r, c)
         == ValuesC(pr, core, i0, b, j0, t + 1)(r, c)
  {
    SumIsDot(pr, i0, b, j0, l0, r, c, pr.p.KActual(kb));
    RotatedStep(pr, core, i0 + r, b, j0 + c, t);
  }

  lemma RotatedStep(pr: Problem, core: nat, i: int, b: int, j: int, t: nat)
    requires pr.p.kLoop > 0
    ensures pr.Rotated(core, i, b, j, t + 1)
         == pr.Rotated(core, i, b, j, t) + pr.BlockDot(i, b, j, pr.p.ShuffleK(core, t))
  {
    var u := t + 1;
    assert u != 0 && u - 1 == t;
  }

  lemma {:induction false} SumIsDot(pr: Problem, i0: int, b: int, j0: int, l0: int, r: int, c: int, n: int)
    ensures Sum(ValuesA(pr, i0, b, l0), ValuesB(pr, b, l0, j0), r, c, 0, n) == pr.Dot(i0 + r, b, j0 + c, l0, l0 + n)
    decreases n
  {
    if n > 0 {
      SumIsDot(pr, i0, b, j0, l0, r, c, n - 1);
    }
  }
}
