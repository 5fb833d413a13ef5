/** The expand kernel's walk: output tiles of a token, tokens of a core, and the adapter of each token. */
module SgmvKernel {
  import Arith
  import opened Buffers
  import opened SgmvExpand

  // One more tile of weights: the sums so far are extended by the tile's.
  lemma TileAdds(y: seq<int>, was: seq<int>, done: seq<int>, tile: seq<int>, x: seq<int>, progress: nat)
    requires |x| > 0 && |done| == progress * |x| && Begins(was, Expand(done, x))
    requires Computed(y, was, progress, Expand(tile, x))
    ensures Begins(y, Expand(done + tile, x))
  {
    ExpandLength(done, x, progress);
    ExpandJoins(done, tile, x, progress);
    TwoParts(y, was, progress, Expand(done, x), Expand(tile, x));
  }

  lemma TwoParts(y: seq<int>, was: seq<int>, progress: nat, a: seq<int>, b: seq<int>)
    requires Begins(was, a) && |a| == progress && Computed(y, was, progress, b)
    ensures Begins(y, a + b)
  {
    assert y[..progress + |b|] == y[..progress] + y[progress..progress + |b|];
  }

  // How many outputs a full tile of weights gives.
  function OutputsPerInputTile(rank: nat): (n: nat)
    requires SupportedRank(rank)
    ensures n * rank == W_IN_TILE_NUM_ELEMENTS && n == W_IN_TILE_NUM_ELEMENTS / rank
  {
    W_IN_TILE_NUM_ELEMENTS / NUM_ELEMENTS_PER_REPEAT * (NUM_ELEMENTS_PER_REPEAT / rank)
  }

  // Full tiles of weights, one after another.
  method FullTiles(yLocal: array<int>, wTmp: array<int>, w: seq<int>, x: seq<int>, tiles: nat)
    requires SupportedRank(|x|) && yLocal != wTmp && wTmp.Length == W_IN_TILE_NUM_ELEMENTS
    requires tiles * W_IN_TILE_NUM_ELEMENTS <= |w| && tiles * OutputsPerInputTile(|x|) <= yLocal.Length
    modifies yLocal, wTmp
    ensures Begins(yLocal[..], Expand(w[..tiles * W_IN_TILE_NUM_ELEMENTS], x))
  {
    var out := OutputsPerInputTile(|x|);
    for t := 0 to tiles
      invariant Begins(yLocal[..], Expand(w[..t * W_IN_TILE_NUM_ELEMENTS], x))
    {
      TileSpace(t, tiles, out, |x|);
      OneTile(yLocal, wTmp, w, x, t * out, t * W_IN_TILE_NUM_ELEMENTS, W_IN_TILE_NUM_ELEMENTS);
    }
  }

  lemma TileSpace(t: nat, tiles: nat, out: nat, rank: nat)
    requires t < tiles && out * rank == W_IN_TILE_NUM_ELEMENTS
    ensures t * out + out <= tiles * out && t * W_IN_TILE_NUM_ELEMENTS == t * out * rank
    ensures (t + 1) * W_IN_TILE_NUM_ELEMENTS <= tiles * W_IN_TILE_NUM_ELEMENTS
  {
    Arith.MulOrder(t, tiles, out);
    assert t * (out * rank) == t * out * rank;
  }

  // One tile of n weights, from place `at` on.
  method OneTile(yLocal: array<int>, wTmp: array<int>, w: seq<int>, x: seq<int>, progress: nat, at: nat, n: nat)
    requires SupportedRank(|x|) && yLocal != wTmp && wTmp.Length == W_IN_TILE_NUM_ELEMENTS
    requires at == progress * |x| && at + n <= |w| && 0 < n <= W_IN_TILE_NUM_ELEMENTS
    requires n % NUM_ELEMENTS_PER_REPEAT == 0 && progress + OutputsPerInputTile(|x|) <= yLocal.Length
    requires Begins(yLocal[..], Expand(w[..at], x))
    modifies yLocal, wTmp
    ensures Begins(yLocal[..], Expand(w[..at + n], x))
  {
    ghost var was := yLocal[..];
    var c := n / NUM_ELEMENTS_PER_REPEAT;
    var pair16 := (c * NUM_BLOCKS_PER_REPEAT + NUM_ELEMENTS_PER_REPEAT - 1) / NUM_ELEMENTS_PER_REPEAT;
    var pair32 := (pair16 + 1) / 2;
    var tile := w[at..at + n];
    Compute(yLocal, wTmp, tile, Duplicated(x), x, |x|, progress, c, pair16, pair32);
    TileAdds(yLocal[..], was, w[..at], tile, x, progress);
    assert w[..at] + tile == w[..at + n];
  }

  // ComputeLastIteration: the full tiles of what is left, and a shorter one.
  method LastTiles(yLocal: array<int>, wTmp: array<int>, w: seq<int>, x: seq<int>)
    requires SupportedRank(|x|) && yLocal != wTmp && wTmp.Length == W_IN_TILE_NUM_ELEMENTS
    requires yLocal.Length == Y_OUT_TILE_NUM_ELEMENTS && |w| % NUM_ELEMENTS_PER_REPEAT == 0
    requires |w| < Y_OUT_TILE_NUM_ELEMENTS * |x|
    modifies yLocal, wTmp
    ensures Begins(yLocal[..], Expand(w, x))
  {
    var full: nat, rest: nat := |w| / W_IN_TILE_NUM_ELEMENTS, |w| % W_IN_TILE_NUM_ELEMENTS;
    var out := OutputsPerInputTile(|x|);
    LastSpace(|w|, |x|);
    FullTiles(yLocal, wTmp, w, x, full);
    if rest != 0 {
      OneTile(yLocal, wTmp, w, x, full * out, full * W_IN_TILE_NUM_ELEMENTS, rest);
    }
    assert w[..|w|] == w;
  }

  lemma LastSpace(n: nat, rank: nat)
    requires SupportedRank(rank) && n < Y_OUT_TILE_NUM_ELEMENTS * rank
    ensures var full, out := n / W_IN_TILE_NUM_ELEMENTS, OutputsPerInputTile(rank);
            full * out + out <= Y_OUT_TILE_NUM_ELEMENTS && full * W_IN_TILE_NUM_ELEMENTS == full * out * rank
  {
    if rank == 8 {
    } else if rank == 16 {
    } else if rank == 32 {
    } else {
    }
  }

  function Added(a: seq<int>, b: seq<int>): (r: seq<int>)
    requires |a| == |b|
    ensures |r| == |a| && forall k :: 0 <= k < |a| ==> r[k] == a[k] + b[k]
  {
    seq(|a|, k requires 0 <= k < |a| => a[k] + b[k])
  }

  lemma AddedJoins(a: seq<int>, b: seq<int>, a': seq<int>, b': seq<int>)
    requires |a| == |b| && |a'| == |b'|
    ensures Added(a + a', b + b') == Added(a, b) + Added(a', b')
  {
  }

  lemma PatchTwice(s: seq<int>, at: nat, a: seq<int>, b: seq<int>)
    requires at + |a| + |b| <= |s|
    ensures Patch(Patch(s, at, a), at + |a|, b) == Patch(s, at, a + b)
  {
  }

  lemma Slice(d: nat, n: nat, all: nat, r: nat)
    requires d + n <= all
    ensures 0 <= d * r <= (d + n) * r <= all * r && (d + n) * r == d * r + n * r
  {
    Arith.MulOrder(d, d + n, r);
    Arith.MulOrder(d + n, all, r);
  }

  // One token's work: its x, its adapter's weights, and the h outputs from place `at` on.
  datatype Token = Token(yIn: seq<int>, at: nat, w: seq<int>, x: seq<int>, h: nat)
  {
    ghost predicate Valid() {
      SupportedRank(|x|) && |w| == h * |x| && |w| % NUM_ELEMENTS_PER_REPEAT == 0 && at + h <= |yIn|
    }

    // The weights of outputs d .. d + n - 1.
    function Lanes(d: nat, n: nat): (r: seq<int>)
      requires Valid() && d + n <= h
      ensures |r| == n * |x|
    {
      Slice(d, n, h, |x|);
      w[d * |x|..(d + n) * |x|]
    }

    // The first d outputs: what was there plus the adapter's product.
    function Outputs(d: nat): (r: seq<int>)
      requires Valid() && d <= h
      ensures |r| == d
    {
      ExpandLength(Lanes(0, d), x, d);
      Added(Expand(Lanes(0, d), x), Cut(yIn, at, d))
    }

    ghost predicate Stored(yOut: seq<int>, was: seq<int>, d: nat)
      requires Valid()
    {
      d <= h && |was| == |yIn| && yOut == Patch(was, at, Outputs(d))
    }

    lemma LanesJoin(d: nat, n: nat)
      requires Valid() && d + n <= h
      ensures Lanes(0, d + n) == Lanes(0, d) + Lanes(d, n)
    {
      Slice(0, d, h, |x|);
      Slice(d, n, h, |x|);
      Slice(0, d + n, h, |x|);
    }

    // One more output tile of n, whose sums stand at the front of y.
    lemma OutputsStep(d: nat, n: nat, y: seq<int>)
      requires Valid() && d + n <= h && Begins(y, Expand(Lanes(d, n), x))
      ensures n <= |y| && Outputs(d + n) == Outputs(d) + Added(y[..n], Cut(yIn, at + d, n))
    {
      LanesJoin(d, n);
      ExpandLength(Lanes(0, d), x, d);
      ExpandLength(Lanes(d, n), x, n);
      ExpandJoins(Lanes(0, d), Lanes(d, n), x, d);
      CutJoins(yIn, at, d, n);
      AddedJoins(Expand(Lanes(0, d), x), Cut(yIn, at, d), y[..n], Cut(yIn, at + d, n));
    }
  }

  lemma CutJoins(s: seq<int>, at: nat, a: nat, b: nat)
    requires at + a + b <= |s|
    ensures Cut(s, at, a + b) == Cut(s, at, a) + Cut(s, at + a, b)
  {
  }

  ghost predicate Separate(yOut: array<int>, yLocal: array<int>, wTmp: array<int>) {
    && yOut != yLocal && yOut != wTmp && yLocal != wTmp
    && yLocal.Length == Y_OUT_TILE_NUM_ELEMENTS && wTmp.Length == W_IN_TILE_NUM_ELEMENTS
  }

  // ScaleOutput and CopyOut: n sums are added to the input's values and stored.
  method StoreOutputs(yOut: array<int>, yLocal: array<int>, t: Token, d: nat, n: nat, ghost s: seq<int>)
    requires yOut != yLocal && t.Valid() && d + n <= t.h
    requires Begins(yLocal[..], Expand(t.Lanes(d, n), t.x)) && t.Stored(yOut[..], s, d)
    modifies yOut
    ensures t.Stored(yOut[..], s, d + n)
  {
    t.OutputsStep(d, n, yLocal[..]);
    var row := Added(yLocal[..n], Cut(t.yIn, t.at + d, n));
    PatchTwice(s, t.at, t.Outputs(d), row);
    DataCopy(yOut, t.at + d, row);
  }

  // A full output tile.
  method FullOutput(yOut: array<int>, yLocal: array<int>, wTmp: array<int>, t: Token, d: nat, ghost s: seq<int>)
    requires Separate(yOut, yLocal, wTmp) && t.Valid() && d + Y_OUT_TILE_NUM_ELEMENTS <= t.h
    requires t.Stored(yOut[..], s, d)
    modifies yOut, yLocal, wTmp
    ensures t.Stored(yOut[..], s, d + Y_OUT_TILE_NUM_ELEMENTS)
  {
    var numStreamIn: nat := Y_OUT_TILE_NUM_ELEMENTS / OutputsPerInputTile(|t.x|);
    StreamFits(|t.x|);
    var tile := t.Lanes(d, Y_OUT_TILE_NUM_ELEMENTS);
    FullTiles(yLocal, wTmp, tile, t.x, numStreamIn);
    assert tile[..numStreamIn * W_IN_TILE_NUM_ELEMENTS] == tile;
    StoreOutputs(yOut, yLocal, t, d, Y_OUT_TILE_NUM_ELEMENTS, s);
  }

  // The outputs that are left.
  method ComputeLastIteration(yOut: array<int>, yLocal: array<int>, wTmp: array<int>, t: Token, numStreamOut: nat,
                              ghost s: seq<int>)
    requires Separate(yOut, yLocal, wTmp) && t.Valid() && numStreamOut == t.h / Y_OUT_TILE_NUM_ELEMENTS
    requires t.Stored(yOut[..], s, numStreamOut * Y_OUT_TILE_NUM_ELEMENTS)
    modifies yOut, yLocal, wTmp
    ensures t.Stored(yOut[..], s, t.h)
  {
    var remainingY: nat := t.h % Y_OUT_TILE_NUM_ELEMENTS;
    var d: nat := numStreamOut * Y_OUT_TILE_NUM_ELEMENTS;
    assert d + remainingY == t.h;
    if remainingY == 0 {
      return;
    }
    Remaining(d, remainingY, |t.x|);
    LastTiles(yLocal, wTmp, t.Lanes(d, remainingY), t.x);
    StoreOutputs(yOut, yLocal, t, d, remainingY, s);
  }

  // One token: full output tiles, then what is left.
  method ExpandToken(yOut: array<int>, yLocal: array<int>, wTmp: array<int>, t: Token)
    requires Separate(yOut, yLocal, wTmp) && t.Valid() && yOut.Length == |t.yIn|
    modifies yOut, yLocal, wTmp
    ensures t.Stored(yOut[..], old(yOut[..]), t.h)
  {
    ghost var s := yOut[..];
    var numStreamOut: nat := t.h / Y_OUT_TILE_NUM_ELEMENTS;
    NoOutputs(s, t);
    for i := 0 to numStreamOut
      invariant t.Stored(yOut[..], s, i * Y_OUT_TILE_NUM_ELEMENTS)
    {
      FullOutput(yOut, yLocal, wTmp, t, i * Y_OUT_TILE_NUM_ELEMENTS, s);
    }
    ComputeLastIteration(yOut, yLocal, wTmp, t, numStreamOut, s);
  }

  lemma NoOutputs(s: seq<int>, t: Token)
    requires t.Valid() && |s| == |t.yIn|
    ensures t.Stored(s, s, 0)
  {
  }

  lemma StreamFits(rank: nat)
    requires SupportedRank(rank)
    ensures var n := Y_OUT_TILE_NUM_ELEMENTS / OutputsPerInputTile(rank);
            && n * W_IN_TILE_NUM_ELEMENTS == Y_OUT_TILE_NUM_ELEMENTS * rank
            && n * OutputsPerInputTile(rank) == Y_OUT_TILE_NUM_ELEMENTS
  {
  }

  lemma Remaining(d: nat, n: nat, rank: nat)
    requires rank > 0 && d % Y_OUT_TILE_NUM_ELEMENTS == 0 && n < Y_OUT_TILE_NUM_ELEMENTS
    requires (d + n) * rank % NUM_ELEMENTS_PER_REPEAT == 0
    ensures (d + n) * rank - d * rank == n * rank < Y_OUT_TILE_NUM_ELEMENTS * rank
    ensures n * rank % NUM_ELEMENTS_PER_REPEAT == 0
  {
    var e := d / NUM_ELEMENTS_PER_REPEAT;
    assert d == e * NUM_ELEMENTS_PER_REPEAT;
    assert (d + n) * rank == e * rank * NUM_ELEMENTS_PER_REPEAT + n * rank;
    SkipRows(n * rank, NUM_ELEMENTS_PER_REPEAT, e * rank);
    Arith.MulOrder(n, Y_OUT_TILE_NUM_ELEMENTS, rank);
  }

  // The adapter list with each entry repeated over its segment.
  function Repeated(loraIndices: seq<int>, seqLen: seq<nat>): (r: seq<int>)
    requires |loraIndices| >= |seqLen|
  {
    if seqLen == [] then [] else seq(seqLen[0], _ => loraIndices[0]) + Repeated(loraIndices[1..], seqLen[1..])
  }

  // The adapter of a token; tokens behind the last segment have none.
  function AdapterOf(loraIndices: seq<int>, seqLen: seq<nat>, idx: nat): int
    requires |loraIndices| >= |seqLen|
  {
    var all := Repeated(loraIndices, seqLen);
    if idx < |all| then all[idx] else -1
  }

  // Tokens in the first n segments.
  function Before(seqLen: seq<nat>, n: nat): nat
    requires n <= |seqLen|
  {
    if n == 0 then 0 else seqLen[0] + Before(seqLen[1..], n - 1)
  }

  // A token in segment n has entry n of the adapter list.
  lemma {:induction false} AdapterIs(loraIndices: seq<int>, seqLen: seq<nat>, idx: nat, n: nat)
    requires |loraIndices| >= |seqLen| && n < |seqLen| && Before(seqLen, n) <= idx < Before(seqLen, n) + seqLen[n]
    ensures AdapterOf(loraIndices, seqLen, idx) == loraIndices[n]
  {
    if n > 0 {
      AdapterIs(loraIndices[1..], seqLen[1..], idx - seqLen[0], n - 1);
    }
  }

  // A token behind them all has none.
  lemma {:induction false} NoAdapter(loraIndices: seq<int>, seqLen: seq<nat>, idx: nat)
    requires |loraIndices| >= |seqLen| && Before(seqLen, |seqLen|) <= idx
    ensures AdapterOf(loraIndices, seqLen, idx) == -1
  {
    if seqLen != [] {
      NoAdapter(loraIndices[1..], seqLen[1..], idx - seqLen[0]);
    }
  }

  lemma SegmentStep(loraIndices: seq<int>, seqLen: seq<nat>, i: nat, weightIdx: nat)
    requires |loraIndices| >= |seqLen| && i < |seqLen|
    ensures AdapterOf(loraIndices[i..], seqLen[i..], weightIdx) ==
            if weightIdx < seqLen[i] then loraIndices[i]
            else AdapterOf(loraIndices[i + 1..], seqLen[i + 1..], weightIdx - seqLen[i])
  {
    assert loraIndices[i..][1..] == loraIndices[i + 1..] && seqLen[i..][1..] == seqLen[i + 1..];
  }

  // CopyInIndex.
  method CopyInIndex(loraIndices: seq<int>, seqLen: seq<nat>, idx: nat) returns (reqLoRAIndex: int)
    requires |loraIndices| >= |seqLen|
    ensures reqLoRAIndex == AdapterOf(loraIndices, seqLen, idx)
  {
    var weightIdx := idx;
    var i: nat := 0;
    assert loraIndices[0..] == loraIndices && seqLen[0..] == seqLen;
    while i < |seqLen|
      invariant i <= |seqLen|
      invariant AdapterOf(loraIndices, seqLen, idx) == AdapterOf(loraIndices[i..], seqLen[i..], weightIdx)
    {
      SegmentStep(loraIndices, seqLen, i, weightIdx);
      if weightIdx >= seqLen[i] {
        weightIdx := weightIdx - seqLen[i];
        i := i + 1;
        continue;
      }
      break;
    }
    reqLoRAIndex := if i < |seqLen| then loraIndices[i] else -1;
  }

  // The sum of w[wAt + l] * x[xAt + l] for l below n.
  function FlatDot(w: seq<int>, wAt: nat, x: seq<int>, xAt: nat, n: nat): int
    requires wAt + n <= |w| && xAt + n <= |x|
  {
    if n == 0 then 0 else FlatDot(w, wAt, x, xAt, n - 1) + w[wAt + n - 1] * x[xAt + n - 1]
  }

  lemma {:induction false} DotOfCuts(w: seq<int>, wAt: nat, m: nat, x: seq<int>, xAt: nat, r: nat, at: nat, n: nat)
    requires wAt + m <= |w| && xAt + r <= |x| && at + n <= m && n <= r
    ensures Dot(Cut(w, wAt, m), Cut(x, xAt, r), at, n) == FlatDot(w, wAt + at, x, xAt, n)
  {
    if n > 0 {
      DotOfCuts(w, wAt, m, x, xAt, r, at, n - 1);
    }
  }

  // The launch: tokens, adapters and the output's slice.
  datatype Config = Config(batchSize: nat, numTokensPerCore: nat, maxLoRARank: nat, outputHiddenDim: nat,
                           sliceOffset: nat, outputFullDim: nat, x: seq<int>, w: seq<int>, yIn: seq<int>,
                           loraIndices: seq<int>, seqLen: seq<nat>)
  {
    ghost predicate Valid() {
      && SupportedRank(maxLoRARank) && outputHiddenDim * maxLoRARank % NUM_ELEMENTS_PER_REPEAT == 0
      && sliceOffset + outputHiddenDim <= outputFullDim
      && |yIn| == TableAt(batchSize, outputFullDim) && |x| == TableAt(batchSize, maxLoRARank)
      && |loraIndices| >= |seqLen|
      && forall i :: 0 <= i < batchSize && Adapter(i) >= 0 ==> WeightsHeld(Adapter(i))
    }

    ghost predicate WeightsHeld(adapter: nat) {
      TableAt(adapter, maxLoRARank * outputHiddenDim) + maxLoRARank * outputHiddenDim <= |w|
    }

    function Adapter(i: nat): int
      requires |loraIndices| >= |seqLen|
    {
      AdapterOf(loraIndices, seqLen, i)
    }

    // What column k of token i holds once the token is done.
    ghost function Value(was: seq<int>, i: nat, k: nat): int
      requires Valid() && i < batchSize && k < outputFullDim && |was| == |yIn|
    {
      RowFits(i, batchSize, outputFullDim);
      var at := TableAt(i, outputFullDim) + k;
      if Adapter(i) >= 0 && sliceOffset <= k < sliceOffset + outputHiddenDim
      then yIn[at] + RowTimesX(i, k - sliceOffset)
      else was[at]
    }

    // Row n of the token's adapter times the token's x.
    ghost function RowTimesX(i: nat, n: nat): int
      requires Valid() && i < batchSize && Adapter(i) >= 0 && n < outputHiddenDim
    {
      assert WeightsHeld(Adapter(i));
      RowFits(n, outputHiddenDim, maxLoRARank);
      RowFits(i, batchSize, maxLoRARank);
      FlatDot(w, TableAt(Adapter(i), maxLoRARank * outputHiddenDim) + TableAt(n, maxLoRARank),
              x, TableAt(i, maxLoRARank), maxLoRARank)
    }
  }

  lemma RowFits(i: nat, n: nat, width: nat)
    requires i < n
    ensures TableAt(i, width) + width <= TableAt(n, width)
    ensures TableAt(n, width) == width * n
  {
    Arith.MulOrder(i, n, width);
  }

  // Tokens lo .. hi - 1 have their values, others what they had.
  ghost predicate CellIs(c: Config, y: seq<int>, was: seq<int>, i: nat, k: nat, lo: int, hi: int)
    requires c.Valid() && i < c.batchSize && k < c.outputFullDim && |y| == |was| == |c.yIn|
  {
    RowFits(i, c.batchSize, c.outputFullDim);
    var at := TableAt(i, c.outputFullDim) + k;
    y[at] == if lo <= i < hi then c.Value(was, i, k) else was[at]
  }

  ghost predicate TokensDone(c: Config, y: seq<int>, was: seq<int>, lo: int, hi: int)
    requires c.Valid() && |y| == |was| == |c.yIn|
  {
    forall i, k :: 0 <= i < c.batchSize && 0 <= k < c.outputFullDim ==> CellIs(c, y, was, i, k, lo, hi)
  }

  // Token i is done in y', and nothing else changes.
  ghost predicate CellAfter(c: Config, y: seq<int>, y': seq<int>, i: nat, j: nat, k: nat)
    requires c.Valid() && i < c.batchSize && j < c.batchSize && k < c.outputFullDim && |y| == |y'| == |c.yIn|
  {
    RowFits(j, c.batchSize, c.outputFullDim);
    var at := TableAt(j, c.outputFullDim) + k;
    y'[at] == if j == i then c.Value(y, i, k) else y[at]
  }

  ghost predicate OneToken(c: Config, y: seq<int>, y': seq<int>, i: nat)
    requires c.Valid() && i < c.batchSize && |y| == |y'| == |c.yIn|
  {
    forall j, k :: 0 <= j < c.batchSize && 0 <= k < c.outputFullDim ==> CellAfter(c, y, y', i, j, k)
  }

  lemma TokenAdds(c: Config, y: seq<int>, y': seq<int>, was: seq<int>, lo: int, i: nat, hi: int)
    requires hi == i + 1 && c.Valid() && |y| == |y'| == |was| == |c.yIn| && lo <= i < c.batchSize
    requires TokensDone(c, y, was, lo, i) && OneToken(c, y, y', i)
    ensures TokensDone(c, y', was, lo, hi)
  {
    forall j, k | 0 <= j < c.batchSize && 0 <= k < c.outputFullDim
      ensures CellIs(c, y', was, j, k, lo, hi)
    {
      assert CellIs(c, y, was, j, k, lo, i);
      assert CellAfter(c, y, y', i, j, k);
    }
  }

  // The tokens of one core after those of the cores before it.
  lemma CoresAdd(c: Config, y: seq<int>, y': seq<int>, was: seq<int>, lo: int, hi: int)
    requires c.Valid() && |y| == |y'| == |was| == |c.yIn| && 0 <= lo <= hi
    requires TokensDone(c, y, was, 0, lo) && TokensDone(c, y', y, lo, hi)
    ensures TokensDone(c, y', was, 0, hi)
  {
    forall j, k | 0 <= j < c.batchSize && 0 <= k < c.outputFullDim
      ensures CellIs(c, y', was, j, k, 0, hi)
    {
      assert CellIs(c, y, was, j, k, 0, lo);
      assert CellIs(c, y', y, j, k, lo, hi);
    }
  }

  // What output n of a token is.
  lemma OutputIs(t: Token, n: nat)
    requires t.Valid() && n < t.h
    ensures TableAt(n, |t.x|) + |t.x| <= |t.w|
    ensures t.Outputs(t.h)[n] == t.yIn[t.at + n] + Dot(t.w, t.x, TableAt(n, |t.x|), |t.x|)
  {
    assert t.Lanes(0, t.h) == t.w;
    ExpandIsDot(t.w, t.x, n, t.h);
  }

  // The slices of two tokens do not meet.
  lemma SliceCells(c: Config, i: nat, j: nat, k: nat)
    requires c.Valid() && i < c.batchSize && j < c.batchSize && k < c.outputFullDim
    ensures var at, cell := TableAt(i, c.outputFullDim) + c.sliceOffset, TableAt(j, c.outputFullDim) + k;
            at <= cell < at + c.outputHiddenDim <==> j == i && c.sliceOffset <= k < c.sliceOffset + c.outputHiddenDim
  {
    Arith.MulOrder(i, j, c.outputFullDim);
    Arith.MulOrder(j, i, c.outputFullDim);
  }

  ghost predicate TokenOf(c: Config, t: Token, i: nat)
    requires c.Valid() && i < c.batchSize && c.Adapter(i) >= 0
  {
    assert c.WeightsHeld(c.Adapter(i));
    RowFits(i, c.batchSize, c.maxLoRARank);
    var len := c.maxLoRARank * c.outputHiddenDim;
    t == Token(c.yIn, TableAt(i, c.outputFullDim) + c.sliceOffset, Cut(c.w, TableAt(c.Adapter(i), len), len),
               Cut(c.x, TableAt(i, c.maxLoRARank), c.maxLoRARank), c.outputHiddenDim)
  }

  lemma TokenFits(c: Config, t: Token, i: nat)
    requires c.Valid() && i < c.batchSize && c.Adapter(i) >= 0 && TokenOf(c, t, i)
    ensures t.Valid()
  {
    RowFits(i, c.batchSize, c.outputFullDim);
    assert c.maxLoRARank * c.outputHiddenDim == c.outputHiddenDim * c.maxLoRARank;
  }

  lemma OutputOf(c: Config, t: Token, i: nat, n: nat)
    requires c.Valid() && i < c.batchSize && c.Adapter(i) >= 0 && TokenOf(c, t, i) && n < c.outputHiddenDim
    ensures TableAt(n, c.maxLoRARank) + c.maxLoRARank <= |t.w| && |t.x| == c.maxLoRARank
    ensures Dot(t.w, t.x, TableAt(n, c.maxLoRARank), c.maxLoRARank) == c.RowTimesX(i, n)
  {
    var len := c.maxLoRARank * c.outputHiddenDim;
    assert c.WeightsHeld(c.Adapter(i));
    RowFits(n, c.outputHiddenDim, c.maxLoRARank);
    RowFits(i, c.batchSize, c.maxLoRARank);
    DotOfCuts(c.w, TableAt(c.Adapter(i), len), len, c.x, TableAt(i, c.maxLoRARank), c.maxLoRARank,
              TableAt(n, c.maxLoRARank), c.maxLoRARank);
  }

  lemma CellStored(c: Config, t: Token, i: nat, y: seq<int>, y': seq<int>, j: nat, k: nat)
    requires c.Valid() && i < c.batchSize && c.Adapter(i) >= 0 && TokenOf(c, t, i) && |y| == |y'| == |c.yIn|
    requires t.Valid() && t.Stored(y', y, t.h) && j < c.batchSize && k < c.outputFullDim
    ensures CellAfter(c, y, y', i, j, k)
  {
    RowFits(j, c.batchSize, c.outputFullDim);
    SliceCells(c, i, j, k);
    if j == i && c.sliceOffset <= k < c.sliceOffset + c.outputHiddenDim {
      OutputIs(t, k - c.sliceOffset);
      OutputOf(c, t, i, k - c.sliceOffset);
    }
  }

  lemma StoredIsDone(c: Config, t: Token, i: nat, y: seq<int>, y': seq<int>)
    requires c.Valid() && i < c.batchSize && c.Adapter(i) >= 0 && TokenOf(c, t, i) && |y| == |y'| == |c.yIn|
    requires t.Valid() && t.Stored(y', y, t.h)
    ensures OneToken(c, y, y', i)
  {
    forall j, k | 0 <= j < c.batchSize && 0 <= k < c.outputFullDim
      ensures CellAfter(c, y, y', i, j, k)
    {
      CellStored(c, t, i, y, y', j, k);
    }
  }

  lemma NoneDone(c: Config, y: seq<int>, lo: int, hi: int)
    requires c.Valid() && |y| == |c.yIn| && hi <= lo
    ensures TokensDone(c, y, y, lo, hi)
  {
    forall j, k | 0 <= j < c.batchSize && 0 <= k < c.outputFullDim
      ensures CellIs(c, y, y, j, k, lo, hi)
    {
    }
  }

  class SGMVExpand {
    const c: Config
    const yOutGm: array<int>
    const tmpBufferY: array<int>
    const tmpBufferW: array<int>
    var reqLoRAIndex: int

    ghost predicate Valid() {
      c.Valid() && Separate(yOutGm, tmpBufferY, tmpBufferW) && yOutGm.Length == |c.yIn|
    }

    constructor (c: Config, yOut: array<int>)
      requires c.Valid() && yOut.Length == |c.yIn|
      ensures Valid() && this.c == c && yOutGm == yOut && fresh(tmpBufferY) && fresh(tmpBufferW)
    {
      this.c, yOutGm, reqLoRAIndex := c, yOut, -1;
      tmpBufferY, tmpBufferW := new int[Y_OUT_TILE_NUM_ELEMENTS], new int[W_IN_TILE_NUM_ELEMENTS];
    }

    // The tokens of one core.
    method Process(blockIdx: nat)
      requires Valid()
      modifies this, yOutGm, tmpBufferY, tmpBufferW
      ensures var start := blockIdx * c.numTokensPerCore;
              TokensDone(c, yOutGm[..], old(yOutGm[..]), start, Arith.Min(start + c.numTokensPerCore, c.batchSize))
    {
      var startIdx: nat := blockIdx * c.numTokensPerCore;
      var endIdx := startIdx + c.numTokensPerCore;
      if endIdx > c.batchSize {
        endIdx := c.batchSize;
      }
      ProcessTokens(startIdx, endIdx);
    }

    method ProcessTokens(startIdx: nat, endIdx: nat)
      requires Valid() && endIdx <= c.batchSize
      modifies this, yOutGm, tmpBufferY, tmpBufferW
      ensures TokensDone(c, yOutGm[..], old(yOutGm[..]), startIdx, endIdx)
    {
      ghost var s := yOutGm[..];
      NoneDone(c, s, startIdx, startIdx);
      NoneDone(c, s, startIdx, Arith.Min(startIdx, endIdx));
      var idx := startIdx;
      while idx < endIdx
        invariant startIdx <= idx && (startIdx < endIdx ==> idx <= endIdx)
        invariant TokensDone(c, yOutGm[..], s, startIdx, if startIdx < endIdx then idx else endIdx)
      {
        ghost var y := yOutGm[..];
        ProcessToken(idx);
        TokenAdds(c, y, yOutGm[..], s, startIdx, idx, idx + 1);
        idx := idx + 1;
      }
    }

    method ProcessToken(idx: nat)
      requires Valid() && idx < c.batchSize
      modifies this, yOutGm, tmpBufferY, tmpBufferW
      ensures OneToken(c, old(yOutGm[..]), yOutGm[..], idx)
    {
      reqLoRAIndex := CopyInIndex(c.loraIndices, c.seqLen, idx);
      if reqLoRAIndex < 0 {
        return;
      }
      ghost var y := yOutGm[..];
      var singleLoRAWeightLen := c.maxLoRARank * c.outputHiddenDim;
      OffsetsFit(c, idx, reqLoRAIndex);
      var yOffset := c.outputFullDim * idx + c.sliceOffset;
      var reqLoRAWeightOffset := reqLoRAIndex * singleLoRAWeightLen;
      var t := Token(c.yIn, yOffset, c.w[reqLoRAWeightOffset..reqLoRAWeightOffset + singleLoRAWeightLen],
                     c.x[c.maxLoRARank * idx..c.maxLoRARank * idx + c.maxLoRARank], c.outputHiddenDim);
      TokenFits(c, t, idx);
      ExpandToken(yOutGm, tmpBufferY, tmpBufferW, t);
      StoredIsDone(c, t, idx, y, yOutGm[..]);
    }
  }

  // The places at which the kernel reads lie in the buffers.
  lemma OffsetsFit(c: Config, i: nat, adapter: int)
    requires c.Valid() && i < c.batchSize && adapter == c.Adapter(i) >= 0
    ensures c.outputFullDim * i == TableAt(i, c.outputFullDim)
    ensures c.maxLoRARank * i == TableAt(i, c.maxLoRARank) && c.maxLoRARank * i + c.maxLoRARank <= |c.x|
    ensures var len := c.maxLoRARank * c.outputHiddenDim;
            adapter * len == TableAt(adapter, len) && len >= 0 && adapter * len + len <= |c.w|
  {
    assert c.WeightsHeld(adapter);
    RowFits(i, c.batchSize, c.maxLoRARank);
  }

  // Column sliceOffset + n of token i gains the product of row n of its adapter's weights and the token's x.
  lemma TokenGains(c: Config, y: seq<int>, was: seq<int>, i: nat, n: nat, adapter: int)
    requires c.Valid() && |y| == |was| == |c.yIn| && TokensDone(c, y, was, 0, c.batchSize)
    requires i < c.batchSize && n < c.outputHiddenDim && adapter == c.Adapter(i) >= 0
    ensures var at, rank := i * c.outputFullDim + c.sliceOffset + n, c.maxLoRARank;
            var wAt, xAt := adapter * (rank * c.outputHiddenDim) + n * rank, i * rank;
            && 0 <= at < |y| && 0 <= wAt && wAt + rank <= |c.w| && 0 <= xAt && xAt + rank <= |c.x|
            && y[at] == c.yIn[at] + FlatDot(c.w, wAt, c.x, xAt, rank)
  {
    OffsetsFit(c, i, adapter);
    RowFits(i, c.batchSize, c.outputFullDim);
    RowFits(n, c.outputHiddenDim, c.maxLoRARank);
    assert CellIs(c, y, was, i, c.sliceOffset + n, 0, c.batchSize);
  }

  // Columns outside the slice, and all columns of tokens without an adapter, stay.
  lemma OthersStay(c: Config, y: seq<int>, was: seq<int>, i: nat, k: nat)
    requires c.Valid() && |y| == |was| == |c.yIn| && TokensDone(c, y, was, 0, c.batchSize)
    requires i < c.batchSize && k < c.outputFullDim
    requires c.Adapter(i) < 0 || k < c.sliceOffset || c.sliceOffset + c.outputHiddenDim <= k
    ensures 0 <= i * c.outputFullDim + k < |y| && y[i * c.outputFullDim + k] == was[i * c.outputFullDim + k]
  {
    RowFits(i, c.batchSize, c.outputFullDim);
    assert CellIs(c, y, was, i, k, 0, c.batchSize);
  }

  // All cores together: every token of the batch gets its outputs, and the rest of y stays as it was.
  method Launch(c: Config, yOut: array<int>, cores: nat)
    requires c.Valid() && yOut.Length == |c.yIn| && cores * c.numTokensPerCore >= c.batchSize
    modifies yOut
    ensures TokensDone(c, yOut[..], old(yOut[..]), 0, c.batchSize)
  {
    ghost var s := yOut[..];
    ghost var done := 0;
    for blockIdx := 0 to cores
      invariant done == Arith.Min(blockIdx * c.numTokensPerCore, c.batchSize)
      invariant TokensDone(c, yOut[..], s, 0, done)
    {
      ghost var y := yOut[..];
      var core := new SGMVExpand(c, yOut);
      core.Process(blockIdx);
      ghost var next := Arith.Min((blockIdx + 1) * c.numTokensPerCore, c.batchSize);
      NextCore(c, yOut[..], y, blockIdx, c.numTokensPerCore, done, next);
      CoresAdd(c, y, yOut[..], s, done, next);
      done := next;
    }
  }

  lemma NextCore(c: Config, y: seq<int>, was: seq<int>, b: nat, n: nat, done: int, next: int)
    requires c.Valid() && |y| == |was| == |c.yIn| && done == Arith.Min(b * n, c.batchSize)
    requires next == Arith.Min((b + 1) * n, c.batchSize)
    requires TokensDone(c, y, was, b * n, Arith.Min(b * n + n, c.batchSize))
    ensures 0 <= done <= next && TokensDone(c, y, was, done, next)
  {
    assert (b + 1) * n == b * n + n;
    forall i, k | 0 <= i < c.batchSize && 0 <= k < c.outputFullDim
      ensures CellIs(c, y, was, i, k, done, next)
    {
      assert CellIs(c, y, was, i, k, b * n, Arith.Min(b * n + n, c.batchSize));
    }
  }
}
