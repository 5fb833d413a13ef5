/** The segmented LoRA expand kernel: y + W x per token, tile by tile, with lane reductions. */
module SgmvExpand {
  import Arith
  import opened Buffers
  import opened SgmvReduce

  const NUM_BLOCKS_PER_REPEAT: nat := 8
  const NUM_ELEMENTS_PER_REPEAT: nat := 64
  const W_IN_TILE_NUM_ELEMENTS: nat := 8192
  const Y_OUT_TILE_NUM_ELEMENTS: nat := 4096

  predicate SupportedRank(rank: nat) {
    rank == 8 || rank == 16 || rank == 32 || rank == 64
  }

  // Lane j of the weights times lane j of x, which is repeated as often as needed.
  function Products(w: seq<int>, x: seq<int>): (r: seq<int>)
    requires |x| > 0
    ensures |r| == |w| && forall j :: 0 <= j < |w| ==> r[j] == x[j % |x|] * w[j]
  {
    seq(|w|, j requires 0 <= j < |w| => x[j % |x|] * w[j])
  }

  ghost predicate Begins(s: seq<int>, t: seq<int>) {
    |t| <= |s| && s[..|t|] == t
  }

  lemma {:induction false} ReduceBegins(r: nat, s: seq<int>, t: seq<int>, n: nat)
    requires r > 0 && Begins(s, t) && Groups(t, r, n)
    ensures Begins(Reduce(r, s), Reduce(r, t))
  {
    assert s == t + s[|t|..];
    ReduceJoins(r, t, s[|t|..], n);
  }

  // BlockReduceSum (eight lanes) and PairReduceSum (two lanes), on `repeats` times 64 lanes of src, of which
  // `valid` are meaningful.
  method ReduceSum(dst: array<int>, at: nat, src: array<int>, lanes: nat, repeats: nat, ghost valid: seq<int>,
                   ghost n: nat) returns (ghost row: seq<int>)
    requires lanes == 8 || lanes == 2
    requires NUM_ELEMENTS_PER_REPEAT * repeats <= src.Length
    requires at + NUM_ELEMENTS_PER_REPEAT / lanes * repeats <= dst.Length
    requires Begins(src[..], valid) && |valid| == n * lanes <= NUM_ELEMENTS_PER_REPEAT * repeats
    modifies dst
    ensures |row| == NUM_ELEMENTS_PER_REPEAT / lanes * repeats && Begins(row, Reduce(lanes, valid))
    ensures dst[..] == Patch(old(dst[..]), at, row)
  {
    var taken := src[..NUM_ELEMENTS_PER_REPEAT * repeats];
    GroupsIff(taken, lanes, NUM_ELEMENTS_PER_REPEAT / lanes * repeats);
    ReduceLength(lanes, taken, NUM_ELEMENTS_PER_REPEAT / lanes * repeats);
    GroupsIff(valid, lanes, n);
    ReduceBegins(lanes, taken, valid, n);
    var sums := Reduce(lanes, taken);
    row := sums;
    DataCopy(dst, at, sums);
  }

  // In place, the sums are where the next stage reads them.
  method ReduceInPlace(wTmp: array<int>, lanes: nat, repeats: nat, ghost valid: seq<int>, ghost n: nat)
    requires lanes == 8 || lanes == 2
    requires NUM_ELEMENTS_PER_REPEAT * repeats <= wTmp.Length
    requires Begins(wTmp[..], valid) && |valid| == n * lanes <= NUM_ELEMENTS_PER_REPEAT * repeats
    modifies wTmp
    ensures Begins(wTmp[..], Reduce(lanes, valid)) && |Reduce(lanes, valid)| == n
  {
    ghost var was := wTmp[..];
    ghost var row := ReduceSum(wTmp, 0, wTmp, lanes, repeats, valid, n);
    GroupsIff(valid, lanes, n);
    ReduceLength(lanes, valid, n);
    PatchBegins(was, row, Reduce(lanes, valid));
  }

  lemma PatchBegins(s: seq<int>, row: seq<int>, t: seq<int>)
    requires |row| <= |s| && Begins(row, t)
    ensures Begins(Patch(s, 0, row), t)
  {
  }

  // What a tile's products sum up to, group by group.
  ghost predicate Computed(y: seq<int>, was: seq<int>, progress: nat, sums: seq<int>) {
    && |y| == |was| && progress + |sums| <= |y|
    && y[..progress] == was[..progress] && y[progress..progress + |sums|] == sums
  }

  lemma PatchComputes(was: seq<int>, at: nat, row: seq<int>, sums: seq<int>)
    requires at + |row| <= |was| && Begins(row, sums)
    ensures Computed(Patch(was, at, row), was, at, sums)
  {
  }

  // The last stage, into the output tile.
  method ReduceOut(yLocal: array<int>, progress: nat, wTmp: array<int>, lanes: nat, repeats: nat,
                   ghost valid: seq<int>, ghost n: nat)
    requires lanes == 8 || lanes == 2
    requires NUM_ELEMENTS_PER_REPEAT * repeats <= wTmp.Length
    requires progress + NUM_ELEMENTS_PER_REPEAT / lanes * repeats <= yLocal.Length
    requires Begins(wTmp[..], valid) && |valid| == n * lanes <= NUM_ELEMENTS_PER_REPEAT * repeats
    modifies yLocal
    ensures Computed(yLocal[..], old(yLocal[..]), progress, Reduce(lanes, valid))
  {
    ghost var was := yLocal[..];
    ghost var row := ReduceSum(yLocal, progress, wTmp, lanes, repeats, valid, n);
    PatchComputes(was, progress, row, Reduce(lanes, valid));
  }

  // The stages for each rank: eight, eight times two, eight times two times two, or eight times eight lanes.
  method Stages(yLocal: array<int>, wTmp: array<int>, rank: nat, progress: nat, c: nat, pair16: nat, pair32: nat,
                ghost p: seq<int>)
    requires SupportedRank(rank) && yLocal != wTmp
    requires wTmp.Length == W_IN_TILE_NUM_ELEMENTS && 0 < c <= W_IN_TILE_NUM_ELEMENTS / NUM_ELEMENTS_PER_REPEAT
    requires |p| == NUM_ELEMENTS_PER_REPEAT * c && Begins(wTmp[..], p)
    requires pair16 == (c * NUM_BLOCKS_PER_REPEAT + NUM_ELEMENTS_PER_REPEAT - 1) / NUM_ELEMENTS_PER_REPEAT
    requires pair32 == (pair16 + 1) / 2
    requires progress + W_IN_TILE_NUM_ELEMENTS / rank <= yLocal.Length
    modifies yLocal, wTmp
    ensures Computed(yLocal[..], old(yLocal[..]), progress, Reduce(rank, p))
  {
    if rank == 8 {
      ReduceOut(yLocal, progress, wTmp, 8, c, p, 8 * c);
    } else if rank == 16 {
      ReduceInPlace(wTmp, 8, c, p, 8 * c);
      ReduceOut(yLocal, progress, wTmp, 2, pair16, Reduce(8, p), 4 * c);
      TwoStages(8, 2, p, 4 * c);
    } else if rank == 32 {
      ReduceInPlace(wTmp, 8, c, p, 8 * c);
      ReduceInPlace(wTmp, 2, pair16, Reduce(8, p), 4 * c);
      ReduceOut(yLocal, progress, wTmp, 2, pair32, Reduce(2, Reduce(8, p)), 2 * c);
      TwoStages(8, 2, p, 4 * c);
      TwoStages(16, 2, p, 2 * c);
    } else {
      ReduceInPlace(wTmp, 8, c, p, 8 * c);
      ReduceOut(yLocal, progress, wTmp, 8, pair16, Reduce(8, p), c);
      TwoStages(8, 8, p, c);
    }
  }

  lemma TwoStages(a: nat, b: nat, p: seq<int>, n: nat)
    requires a > 0 && b > 0 && a * b > 0 && |p| == n * (a * b)
    ensures Reduce(b, Reduce(a, p)) == Reduce(a * b, p)
  {
    GroupsIff(p, a * b, n);
    ReduceInStages(a, b, p, n);
  }

  // Compute: one tile of weights, 64 * c lanes of them.
  method Compute(yLocal: array<int>, wTmp: array<int>, wLocal: seq<int>, xDup: seq<int>, ghost x: seq<int>, rank: nat,
                 progress: nat, c: nat, pair16: nat, pair32: nat)
    requires SupportedRank(rank) && yLocal != wTmp && |x| == rank && xDup == Duplicated(x)
    requires wTmp.Length == W_IN_TILE_NUM_ELEMENTS && 0 < c <= W_IN_TILE_NUM_ELEMENTS / NUM_ELEMENTS_PER_REPEAT
    requires |wLocal| == NUM_ELEMENTS_PER_REPEAT * c
    requires pair16 == (c * NUM_BLOCKS_PER_REPEAT + NUM_ELEMENTS_PER_REPEAT - 1) / NUM_ELEMENTS_PER_REPEAT
    requires pair32 == (pair16 + 1) / 2
    requires progress + W_IN_TILE_NUM_ELEMENTS / rank <= yLocal.Length
    modifies yLocal, wTmp
    ensures Computed(yLocal[..], old(yLocal[..]), progress, Reduce(rank, Products(wLocal, x)))
  {
    var p := Products(wLocal, xDup);
    DuplicatedProducts(wLocal, x);
    DataCopy(wTmp, 0, p);
    assert wTmp[..][..|p|] == p;
    Stages(yLocal, wTmp, rank, progress, c, pair16, pair32, p);
  }

  // x repeated over 64 lanes.
  function Duplicated(x: seq<int>): (r: seq<int>)
    requires |x| > 0
    ensures |r| == NUM_ELEMENTS_PER_REPEAT && forall j :: 0 <= j < NUM_ELEMENTS_PER_REPEAT ==> r[j] == x[j % |x|]
  {
    seq(NUM_ELEMENTS_PER_REPEAT, j requires 0 <= j => x[j % |x|])
  }

  lemma DuplicatedProducts(w: seq<int>, x: seq<int>)
    requires SupportedRank(|x|)
    ensures Products(w, Duplicated(x)) == Products(w, x)
  {
    forall j | 0 <= j < |w|
      ensures Products(w, Duplicated(x))[j] == Products(w, x)[j]
    {
      ModTwice(j, |x|);
    }
  }

  lemma ModTwice(j: nat, rank: nat)
    requires SupportedRank(rank)
    ensures j % NUM_ELEMENTS_PER_REPEAT % rank == j % rank
  {
    if rank == 8 {
    } else if rank == 16 {
    } else if rank == 32 {
    } else {
    }
  }

  // W x for the rows of weights in w: one sum of |x| products each.
  function Expand(w: seq<int>, x: seq<int>): (r: seq<int>)
    requires |x| > 0
  {
    Reduce(|x|, Products(w, x))
  }

  lemma ExpandLength(w: seq<int>, x: seq<int>, n: nat)
    requires |x| > 0 && |w| == n * |x|
    ensures |Expand(w, x)| == n
  {
    GroupsIff(Products(w, x), |x|, n);
    ReduceLength(|x|, Products(w, x), n);
  }

  lemma ExpandJoins(a: seq<int>, b: seq<int>, x: seq<int>, n: nat)
    requires |x| > 0 && |a| == n * |x|
    ensures Expand(a + b, x) == Expand(a, x) + Expand(b, x)
  {
    forall j | |a| <= j < |a + b|
      ensures j % |x| == (j - |a|) % |x|
    {
      SkipRows(j - |a|, |x|, n);
    }
    assert Products(a + b, x) == Products(a, x) + Products(b, x);
    GroupsIff(Products(a, x), |x|, n);
    ReduceJoins(|x|, Products(a, x), Products(b, x), n);
  }

  lemma {:induction false} SkipRows(j: nat, r: nat, n: nat)
    requires r > 0
    ensures (n * r + j) % r == j % r
  {
    if n > 0 {
      SkipRows(j, r, n - 1);
      assert n * r + j == (n - 1) * r + j + r;
      OneRow((n - 1) * r + j, r);
    }
  }

  lemma OneRow(j: nat, r: nat)
    requires r > 0
    ensures (j + r) % r == j % r
  {
    Arith.DivBounds(j, r);
    Arith.DivUnique(j + r, r, j / r + 1);
  }

  function Dot(w: seq<int>, x: seq<int>, at: nat, n: nat): int
    requires at + n <= |w| && n <= |x|
  {
    if n == 0 then 0 else Dot(w, x, at, n - 1) + w[at + n - 1] * x[n - 1]
  }

  // Output k is row k of the weights times x.
  lemma ExpandIsDot(w: seq<int>, x: seq<int>, k: nat, n: nat)
    requires |x| > 0 && |w| == n * |x| && k < n
    ensures k * |x| + |x| <= |w| && |Expand(w, x)| == n
    ensures Expand(w, x)[k] == Dot(w, x, k * |x|, |x|)
  {
    Arith.MulOrder(k, n, |x|);
    ExpandLength(w, x, n);
    var at := k * |x|;
    OneOutput(w, x, k, at, w[..at], w[at..at + |x|], w[at + |x|..]);
    RowSum(w, w[at..at + |x|], x, at, |x|);
  }

  lemma OneOutput(w: seq<int>, x: seq<int>, k: nat, at: nat, a: seq<int>, b: seq<int>, c: seq<int>)
    requires |x| > 0 && |a| == at == k * |x| && |b| == |x| && w == a + b + c
    ensures k < |Expand(w, x)| && Expand(w, x)[k] == Sum(Products(b, x)[..|x|])
  {
    ExpandJoins(a, b + c, x, k);
    assert w == a + (b + c);
    ExpandLength(a, x, k);
    assert 1 * |x| == |x|;
    ExpandJoins(b, c, x, 1);
    assert Products(b, x)[..|x|] == Products(b, x);
  }

  lemma {:induction false} RowSum(w: seq<int>, b: seq<int>, x: seq<int>, at: nat, n: nat)
    requires |b| == |x| > 0 && at + |x| <= |w| && b == w[at..at + |x|] && n <= |x|
    ensures Sum(Products(b, x)[..n]) == Dot(w, x, at, n)
  {
    if n > 0 {
      RowSum(w, b, x, at, n - 1);
      Arith.DivUnique(n - 1, |x|, 0);
      Commutes(x[n - 1], b[n - 1]);
      LastTerm(Products(b, x), n);
    }
  }

  lemma LastTerm(s: seq<int>, n: nat)
    requires 0 < n <= |s|
    ensures Sum(s[..n]) == Sum(s[..n - 1]) + s[n - 1]
  {
    assert s[..n][..n - 1] == s[..n - 1];
  }

  lemma Commutes(a: int, b: int)
    ensures a * b == b * a
  {
  }
}
