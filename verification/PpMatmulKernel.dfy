/** The ping-pong batched matmul kernel on one core: prefetch, k split, accumulation and write-back. */
module PpMatmulKernel {
  import opened Arith
  import opened Buffers
  import opened Swizzle
  import opened MatmulSpec
  import opened NzFormat
  import opened TileMath
  import opened PpMatmulTiles
  import opened PpMatmulOutput

  const L0_PINGPONG_BUFFER_LEN: nat := 16384
  const L1_PINGPONG_BUFFER_LEN: nat := 131072

  // Where the right to use a buffer is. `Filled` and `Drained` are the two event flags of the pair being up:
  // from the pipe that fills the buffer to the one that uses it, and back.
  datatype Token = Filling | Filled | Using | Drained

  // One k block of one tile: its origin in A, B and C and its extent.
  datatype Part = Part(i0: nat, b: nat, j0: nat, rows: nat, cols: nat, l0: nat, len: nat)

  // The k values that fit an L0 buffer beside the larger side of a tile.
  function KPartLen(rows: nat, cols: nat): nat
    requires rows > 0 && cols > 0
  {
    RoundUpBounds(rows);
    RoundUpBounds(cols);
    RoundDown16(PerRow(Max(RoundUp16(rows), RoundUp16(cols))))
  }

  function RoundDown16(x: nat): nat {
    x / 16 * 16
  }

  function PerRow(x: nat): (q: nat)
    requires x > 0
  {
    16384 / x
  }

  // Both operands of a step fit an L0 buffer, and a step takes k values exactly when the larger rounded side of the
  // tile is at most 1024.
  lemma KPartFits(rows: nat, cols: nat)
    requires rows > 0 && cols > 0
    ensures KPartLen(rows, cols) > 0 <==> Max(RoundUp16(rows), RoundUp16(cols)) <= 1024
    ensures KPartLen(rows, cols) % 16 == 0
    ensures RoundUp16(rows) * KPartLen(rows, cols) <= L0_PINGPONG_BUFFER_LEN
    ensures RoundUp16(cols) * KPartLen(rows, cols) <= L0_PINGPONG_BUFFER_LEN
  {
    var r, c := RoundUp16(rows), RoundUp16(cols);
    RoundUpBounds(rows);
    RoundUpBounds(cols);
    var q := PerRow(Max(r, c));
    PerRowBounds(Max(r, c));
    RoundDownBounds(q);
    PartProduct(r, Max(r, c), q);
    PartProduct(c, Max(r, c), q);
  }

  lemma PerRowBounds(x: nat)
    requires x > 0
    ensures PerRow(x) >= 16 <==> x <= 1024
    ensures x * PerRow(x) <= 16384
  {
    var q := PerRow(x);
    DivBounds(16384, x);
    Commute(q, x);
    if q < 16 {
      MulOrder(q, 15, x);
    } else {
      MulOrder(16, q, x);
    }
  }

  lemma RoundDownBounds(q: nat)
    ensures 0 <= RoundDown16(q) <= q && RoundDown16(q) % 16 == 0
    ensures RoundDown16(q) > 0 <==> q >= 16
  {
  }

  lemma PartProduct(r: nat, x: nat, q: nat)
    requires r <= x && x * q <= 16384
    ensures r * RoundDown16(q) <= 16384
  {
    RoundDownBounds(q);
    MulOrder(r, x, RoundDown16(q));
    MulOrder(RoundDown16(q), q, x);
    Commute(x, q);
    Commute(x, RoundDown16(q));
  }

  ghost predicate PartOk(pr: Problem, g: Part) {
    && g.b < pr.p.batch && g.rows > 0 && g.cols > 0 && g.len > 0
    && g.rows <= 1024 && g.cols <= 1024
    && g.i0 + g.rows <= pr.p.m && g.j0 + g.cols <= pr.p.n && g.l0 + g.len <= pr.p.k
    && g.j0 % 16 == 0 && g.l0 % 16 == 0
  }

  ghost predicate InL1(pr: Problem, g: Part, xa: Matrix, xb: Matrix) {
    && Holds(xa, g.rows, g.len, ValuesA(pr, g.i0, g.b, g.l0))
    && HoldsB(xb, pr.p.transB, g.len, g.cols, ValuesB(pr, g.b, g.l0, g.j0))
  }

  // The k block that core `core` multiplies in step t of tile `tile`.
  function PartOf(p: Tiling, core: nat, tile: Tile, t: nat): (g: Part)
    requires p.Valid() && tile.m < p.mLoop && tile.n < p.nLoop && t < p.kLoop
  {
    p.MTile(tile.m);
    p.NTile(tile.n);
    var kb := p.ShuffleK(core, t);
    p.KTile(kb);
    Part(tile.m * p.m0, tile.batch, tile.n * p.n0, p.MActual(tile.m), p.NActual(tile.n), kb * p.k0, p.KActual(kb))
  }

  lemma PartsAreOk(pr: Problem, core: nat, tile: Tile, t: nat)
    requires pr.Valid() && tile.batch < pr.p.batch && tile.m < pr.p.mLoop && tile.n < pr.p.nLoop && t < pr.p.kLoop
    ensures PartOk(pr, PartOf(pr.p, core, tile, t))
  {
    pr.p.MTile(tile.m);
    pr.p.NTile(tile.n);
    pr.p.KTile(pr.p.ShuffleK(core, t));
    WholeBlocks(tile.n, pr.p.n0);
    WholeBlocks(pr.p.ShuffleK(core, t), pr.p.k0);
  }

  lemma WholeBlocks(a: nat, x: nat)
    requires x % 16 == 0
    ensures a * x % 16 == 0
  {
    MulAssoc(a, x / 16, 16);
    MulOrder(0, a, x / 16);
    DivModOfSum(a * (x / 16), 16, 0);
  }

  datatype Option<T> = None | Some(value: T)

  function TileAt(p: Tiling, index: nat): (t: Tile)
    requires p.Valid() && index < p.CoreLoop()
    ensures t.batch < p.batch && t.m < p.mLoop && t.n < p.nLoop
  {
    TileOf(p.swizzleDir, index, p.batch, p.mLoop, p.nLoop, p.swizzleCnt)
  }

  // The k block after step t of tile number `loopIdx`, on the same core.
  function NextPart(p: Tiling, core: nat, numCore: nat, loopIdx: nat, t: nat): Option<Part>
    requires p.Valid() && loopIdx < p.CoreLoop() && t < p.kLoop
  {
    if t < p.kLoop - 1 then Some(PartOf(p, core, TileAt(p, loopIdx), t + 1))
    else if loopIdx + numCore < p.CoreLoop() then Some(PartOf(p, core, TileAt(p, loopIdx + numCore), 0))
    else None
  }

  // The first k block of tile number `loopIdx`, if there is such a tile.
  function FirstPart(p: Tiling, core: nat, loopIdx: nat): Option<Part>
    requires p.Valid()
  {
    p.LoopsPositive();
    if loopIdx < p.CoreLoop() then Some(PartOf(p, core, TileAt(p, loopIdx), 0)) else None
  }

  // Row r of a tile at (i0, b, j0) starts at the place of C[i0 + r, b, j0], and ends inside C.
  lemma RowPlace(p: Tiling, i0: nat, b: nat, j0: nat, r: nat, offset: nat, stride: nat, cols: nat)
    requires offset == i0 * p.batch * p.n + b * p.n + j0 && stride == p.n * p.batch
    requires i0 + r < p.m && b < p.batch && cols > 0 && j0 + cols <= p.n
    ensures offset + r * stride == AddrC(p, i0 + r, b, j0) <= p.m * (p.batch * p.n) - cols
  {
    StrideSum(i0, r, p.batch, p.n);
    AddrBounds(p.(k := 1), i0 + r, b, 0, j0 + cols - 1);
  }

  // Two k blocks of one tile.
  ghost predicate SameOrigin(g: Part, h: Part) {
    g.i0 == h.i0 && g.b == h.b && g.j0 == h.j0 && g.rows == h.rows && g.cols == h.cols
  }

  // The block after step t: one of the same tile, or the first of the next.
  lemma NextGhost(p: Tiling, core: nat, numCore: nat, loopIdx: nat, tile: Tile, t: nat, g: Part) returns (next: Part)
    requires p.Valid() && loopIdx < p.CoreLoop() && t < p.kLoop
    requires tile == TileAt(p, loopIdx) && g == PartOf(p, core, tile, t)
    ensures SameOrigin(g, next)
    ensures t + 1 < p.kLoop ==> next == PartOf(p, core, tile, t + 1) && NextPart(p, core, numCore, loopIdx, t) == Some(next)
    ensures t + 1 == p.kLoop ==> NextPart(p, core, numCore, loopIdx, t) == FirstPart(p, core, loopIdx + numCore)
  {
    next := if t + 1 < p.kLoop then PartOf(p, core, tile, t + 1) else g;
  }

  lemma PartDone(pr: Problem, core: nat, numCore: nat, index: nat, g: Part, start: seq<int>, before: seq<int>, after: seq<int>)
    requires pr.Valid() && numCore > 0 && index < pr.p.CoreLoop() && index % numCore == core && pr.p.kLoop > 0
    requires g == PartOf(pr.p, core, TileAt(pr.p, index), 0)
    requires Written(pr.p, before, after, g.i0, g.b, g.j0, g.rows, g.cols, ValuesC(pr, core, g.i0, g.b, g.j0, pr.p.kLoop))
    requires Done(pr, core, numCore, index, start, before)
    ensures Done(pr, core, numCore, index + numCore, start, after)
  {
    TileDone(pr, core, numCore, index, TileAt(pr.p, index), g.i0, g.j0, g.rows, g.cols, start, before, after);
  }

  lemma StartsAtZero(pr: Problem, core: nat, i0: int, b: int, j0: int)
    requires pr.p.kLoop > 0
    ensures forall r, c :: ValuesC(pr, core, i0, b, j0, 0)(r, c) == 0
  {
    forall r, c
      ensures ValuesC(pr, core, i0, b, j0, 0)(r, c) == 0
    {
      assert pr.Rotated(core, i0 + r, b, j0 + c, 0) == 0;
    }
  }

  lemma StepDone(pr: Problem, core: nat, tile: Tile, t: nat, g: Part, x: Matrix)
    requires pr.Valid() && tile.m < pr.p.mLoop && tile.n < pr.p.nLoop && t < pr.p.kLoop
    requires g == PartOf(pr.p, core, tile, t)
    requires Holds(x, g.rows, g.cols, Accumulated(ValuesC(pr, core, g.i0, g.b, g.j0, t), ValuesA(pr, g.i0, g.b, g.l0),
                                                  ValuesB(pr, g.b, g.l0, g.j0), g.len))
    ensures Holds(x, g.rows, g.cols, ValuesC(pr, core, g.i0, g.b, g.j0, t + 1))
  {
    var kb := pr.p.ShuffleK(core, t);
    forall r, c | 0 <= r < g.rows && 0 <= c < g.cols
      ensures x[r][c] == ValuesC(pr, core, g.i0, g.b, g.j0, t + 1)(r, c)
    {
      BlockDone(pr, core, g.i0, g.b, g.j0, t, kb, g.l0, r, c);
    }
  }

  class PpMatmulEinSum {
    const pr: Problem
    const coreIdx: nat
    const numCore: nat
    const gmC: array<int>
    var pingFlag: nat
    var l1A: seq<Matrix>
    var l1B: seq<Matrix>
    var l0A: seq<Matrix>
    var l0B: seq<Matrix>
    var l0C: Matrix
    var l1Flag: seq<Token>
    var l0Flag: seq<Token>
    var cFlag: Token

    constructor (pr: Problem, coreIdx: nat, numCore: nat, gmC: array<int>)
      ensures this.pr == pr && this.coreIdx == coreIdx && this.numCore == numCore && this.gmC == gmC
      ensures Shape() && NoFlagUp() && pingFlag == 1
    {
      this.pr, this.coreIdx, this.numCore, this.gmC := pr, coreIdx, numCore, gmC;
      pingFlag := 1;
      l1A, l1B, l0A, l0B, l0C := [[], []], [[], []], [[], []], [[], []], [];
      l1Flag, l0Flag, cFlag := [Filling, Filling, Filling, Filling], [Filling, Filling], Filling;
    }

    ghost predicate Shape()
      reads this
    {
      && pingFlag <= 1 && |l1A| == |l1B| == |l0A| == |l0B| == |l0Flag| == 2 && |l1Flag| == 4
    }

    // Loads one k block into L1 slot e: the A part, then the B part, each once its slot is drained.
    method LoadL1(e: nat, g: Part)
      requires pr.Valid() && PartOk(pr, g) && Shape() && e < 2
      requires l1Flag[e] == Drained && l1Flag[e + 2] == Drained
      modifies `l1A, `l1B, `l1Flag
      ensures Shape() && InL1(pr, g, l1A[e], l1B[e])
      ensures l1A[1 - e] == old(l1A[1 - e]) && l1B[1 - e] == old(l1B[1 - e])
      ensures l1Flag == old(l1Flag)[e := Filled][e + 2 := Filled]
    {
      l1Flag := l1Flag[e := Filling];
      var xa := LoadA(pr, g.i0, g.b, g.l0, g.rows, g.len);
      l1A := l1A[e := xa];
      l1Flag := l1Flag[e := Filled];
      l1Flag := l1Flag[e + 2 := Filling];
      var xb := LoadB(pr, g.b, g.l0, g.j0, g.len, g.cols);
      l1B := l1B[e := xb];
      l1Flag := l1Flag[e + 2 := Filled];
    }

    // Moves n values of k, from value x of the block in slot e on, to the L0 buffers h.
    method LoadL0(e: nat, g: Part, h: nat, x: nat, n: nat, first: bool, last: bool)
      requires Shape() && e < 2 && h < 2 && InL1(pr, g, l1A[e], l1B[e]) && x + n <= g.len
      requires l0Flag[h] == Drained
      requires l1Flag[e] == l1Flag[e + 2] == (if first then Filled else Using)
      modifies `l0A, `l0B, `l0Flag, `l1Flag
      ensures Shape()
      ensures Holds(l0A[h], g.rows, n, FromColumn(ValuesA(pr, g.i0, g.b, g.l0), x))
      ensures HoldsB(l0B[h], pr.p.transB, n, g.cols, FromRow(ValuesB(pr, g.b, g.l0, g.j0), x))
      ensures l0Flag == old(l0Flag)[h := Filled]
      ensures var f := if last then Drained else Using; l1Flag == old(l1Flag)[e := f][e + 2 := f]
    {
      if first {
        l1Flag := l1Flag[e := Using];
      }
      l0Flag := l0Flag[h := Filling];
      LoadL0A(l1A[e], g, h, x, n, ValuesA(pr, g.i0, g.b, g.l0));
      if last {
        l1Flag := l1Flag[e := Drained];
      }
      if first {
        l1Flag := l1Flag[e + 2 := Using];
      }
      LoadL0B(l1B[e], g, h, x, n, ValuesB(pr, g.b, g.l0, g.j0));
      if last {
        l1Flag := l1Flag[e + 2 := Drained];
      }
      l0Flag := l0Flag[h := Filled];
    }

    method LoadL0A(xa: Matrix, g: Part, h: nat, x: nat, n: nat, ghost fa: Values)
      requires |l0A| == 2 && h < 2 && x + n <= g.len && Holds(xa, g.rows, g.len, fa)
      modifies `l0A
      ensures |l0A| == 2 && Holds(l0A[h], g.rows, n, FromColumn(fa, x))
    {
      ColumnsHold(xa, g.rows, g.len, fa, x, n);
      l0A := l0A[h := Columns(xa, x, n)];
    }

    method LoadL0B(xb: Matrix, g: Part, h: nat, x: nat, n: nat, ghost fb: Values)
      requires |l0B| == 2 && h < 2 && x + n <= g.len && HoldsB(xb, pr.p.transB, g.len, g.cols, fb)
      modifies `l0B
      ensures |l0B| == 2 && HoldsB(l0B[h], pr.p.transB, n, g.cols, FromRow(fb, x))
    {
      SliceBHolds(xb, pr.p.transB, g.len, g.cols, fb, x, n);
      l0B := l0B[h := SliceB(xb, pr.p.transB, x, n)];
    }

    // Multiplies the L0 buffers h into the accumulator.
    method Multiply(g: Part, h: nat, x: nat, n: nat, initC: bool, ghost base: Values, ghost fa: Values, ghost fb: Values)
      requires Shape() && h < 2 && l0Flag[h] == Filled
      requires Holds(l0A[h], g.rows, n, FromColumn(fa, x))
      requires HoldsB(l0B[h], pr.p.transB, n, g.cols, FromRow(fb, x))
      requires cFlag == if initC then Drained else Filling
      requires if initC then x == 0 && forall r, c :: 0 <= r < g.rows && 0 <= c < g.cols ==> base(r, c) == 0
               else Holds(l0C, g.rows, g.cols, Accumulated(base, fa, fb, x))
      modifies `l0C, `l0Flag, `cFlag
      ensures Shape() && l0Flag == old(l0Flag)[h := Drained] && cFlag == Filling
      ensures Holds(l0C, g.rows, g.cols, Accumulated(base, fa, fb, x + n))
    {
      l0Flag := l0Flag[h := Using];
      if initC {
        cFlag := Filling;
      }
      MadStep(l0C, l0A[h], l0B[h], pr.p.transB, g.rows, g.cols, n, initC, base, fa, fb, x);
      l0C := Mad(l0C, l0A[h], l0B[h], pr.p.transB, g.rows, g.cols, n, initC);
      l0Flag := l0Flag[h := Drained];
    }

    // Multiplies the block in slot e, L0-sized parts one after the other, on alternating L0 buffers.
    method MultiplyBlock(e: nat, g: Part, t: nat, ghost base: Values, ghost fa: Values, ghost fb: Values)
      requires PartOk(pr, g) && Shape() && e < 2 && InL1(pr, g, l1A[e], l1B[e])
      requires fa == ValuesA(pr, g.i0, g.b, g.l0) && fb == ValuesB(pr, g.b, g.l0, g.j0)
      requires l0Flag == [Drained, Drained] && l1Flag[e] == Filled && l1Flag[e + 2] == Filled
      requires cFlag == if t == 0 then Drained else Filling
      requires if t == 0 then forall r, c :: 0 <= r < g.rows && 0 <= c < g.cols ==> base(r, c) == 0
               else Holds(l0C, g.rows, g.cols, Accumulated(base, fa, fb, 0))
      modifies `l0A, `l0B, `l0C, `l0Flag, `l1Flag, `cFlag
      ensures Shape() && l0Flag == [Drained, Drained] && cFlag == Filling
      ensures l1Flag == old(l1Flag)[e := Drained][e + 2 := Drained]
      ensures Holds(l0C, g.rows, g.cols, Accumulated(base, fa, fb, g.len))
    {
      KPartFits(g.rows, g.cols);
      var kPartLen := KPartLen(g.rows, g.cols);
      var fdimK := CeilDiv(g.len, kPartLen);
      CeilDivGalois(g.len, kPartLen, 0);
      var f, x: nat := 0, 0;
      while f < fdimK
        invariant f <= fdimK && x == if f == fdimK then g.len else f * kPartLen
        invariant Midway(e, g, t, f, fdimK, x, base, fa, fb)
        invariant l1Flag == if f == 0 then old(l1Flag) else
                              var v := if f == fdimK then Drained else Using; old(l1Flag)[e := v][e + 2 := v]
      {
        var n := PartExtent(g.len, kPartLen, fdimK, f, x);
        MultiplyPart(e, g, t, f, fdimK, x, n, base, fa, fb);
        f, x := f + 1, x + n;
      }
    }

    // The state before part f of a block: x of its k values are done.
    ghost predicate Midway(e: nat, g: Part, t: nat, f: nat, fdimK: nat, x: nat, base: Values, fa: Values, fb: Values)
      reads this
    {
      && Shape() && e < 2 && l0Flag == [Drained, Drained] && InL1(pr, g, l1A[e], l1B[e])
      && cFlag == (if t == 0 && f == 0 then Drained else Filling)
      && l1Flag[e] == l1Flag[e + 2] == (if f == 0 then Filled else if f == fdimK then Drained else Using)
      && (f == 0 ==> x == 0)
      && (if t == 0 && f == 0 then forall r, c :: 0 <= r < g.rows && 0 <= c < g.cols ==> base(r, c) == 0
          else Holds(l0C, g.rows, g.cols, Accumulated(base, fa, fb, x)))
    }

    // The k values of part f.
    static method PartExtent(len: nat, kPartLen: nat, fdimK: nat, f: nat, x: nat) returns (n: nat)
      requires kPartLen > 0 && fdimK == CeilDiv(len, kPartLen) && f < fdimK && x == f * kPartLen
      ensures x + n == if f + 1 == fdimK then len else (f + 1) * kPartLen
      ensures x + n <= len
    {
      TileExtent(len, kPartLen, fdimK, f);
      Distribute(f, 1, kPartLen);
      n := if f < fdimK - 1 then kPartLen else len - x;
    }

    // One part, on the L0 buffers of its parity.
    method MultiplyPart(e: nat, g: Part, t: nat, f: nat, fdimK: nat, x: nat, n: nat,
                        ghost base: Values, ghost fa: Values, ghost fb: Values)
      requires fa == ValuesA(pr, g.i0, g.b, g.l0) && fb == ValuesB(pr, g.b, g.l0, g.j0)
      requires f < fdimK && x + n <= g.len && Midway(e, g, t, f, fdimK, x, base, fa, fb)
      modifies `l0A, `l0B, `l0C, `l0Flag, `l1Flag, `cFlag
      ensures Midway(e, g, t, f + 1, fdimK, x + n, base, fa, fb)
      ensures var v := if f + 1 == fdimK then Drained else Using; l1Flag == old(l1Flag)[e := v][e + 2 := v]
    {
      var h := f % 2;
      LoadL0(e, g, h, x, n, f == 0, f == fdimK - 1);
      Multiply(g, h, x, n, t == 0 && f == 0, base, fa, fb);
    }

    ghost predicate InSlot(e: nat, g: Part)
      requires Shape() && e < 2
      reads this
    {
      l1Flag[e] == Filled && l1Flag[e + 2] == Filled && InL1(pr, g, l1A[e], l1B[e])
    }

    ghost predicate FreeSlot(e: nat)
      requires Shape() && e < 2
      reads this
    {
      l1Flag[e] == Drained && l1Flag[e + 2] == Drained
    }

    // The state between two k blocks: `g` waits in the current slot, if there is a block left, and the
    // other slot is free.
    ghost predicate Between(g: Option<Part>)
      reads this
    {
      && Shape() && l0Flag == [Drained, Drained]
      && FreeSlot(pingFlag)
      && (if g.Some? then InSlot(1 - pingFlag, g.value) else FreeSlot(1 - pingFlag))
    }

    // Step t of tile `tile`: starts the load of the next block into the other slot, then multiplies the
    // block that is waiting.
    method Step(loopIdx: nat, tile: Tile, t: nat, ghost g: Part)
      requires pr.Valid() && loopIdx < pr.p.CoreLoop() && t < pr.p.kLoop && numCore > 0
      requires tile == TileAt(pr.p, loopIdx) && g == PartOf(pr.p, coreIdx, tile, t)
      requires Between(Some(g))
      requires cFlag == if t == 0 then Drained else Filling
      requires t > 0 ==> Holds(l0C, g.rows, g.cols, ValuesC(pr, coreIdx, g.i0, g.b, g.j0, t))
      modifies `pingFlag, `l1A, `l1B, `l0A, `l0B, `l0C, `l0Flag, `l1Flag, `cFlag
      ensures Between(NextPart(pr.p, coreIdx, numCore, loopIdx, t)) && cFlag == Filling
      ensures Holds(l0C, g.rows, g.cols, ValuesC(pr, coreIdx, g.i0, g.b, g.j0, t + 1))
    {
      Prefetch(loopIdx, tile, t);
      var part := GetPart(tile, t);
      MultiplyStep(1 - pingFlag, t, part);
      StepDone(pr, coreIdx, tile, t, part, l0C);
      pingFlag := 1 - pingFlag;
    }

    // Multiplies the block waiting in slot e into the accumulator.
    method MultiplyStep(e: nat, t: nat, g: Part)
      requires PartOk(pr, g) && pr.p.kLoop > 0
      requires Shape() && l0Flag == [Drained, Drained] && e < 2 && InSlot(e, g)
      requires cFlag == if t == 0 then Drained else Filling
      requires t > 0 ==> Holds(l0C, g.rows, g.cols, ValuesC(pr, coreIdx, g.i0, g.b, g.j0, t))
      modifies `l0A, `l0B, `l0C, `l0Flag, `l1Flag, `cFlag
      ensures Shape() && l0Flag == [Drained, Drained] && cFlag == Filling
      ensures l1Flag == old(l1Flag)[e := Drained][e + 2 := Drained]
      ensures Holds(l0C, g.rows, g.cols, Accumulated(ValuesC(pr, coreIdx, g.i0, g.b, g.j0, t),
                                                     ValuesA(pr, g.i0, g.b, g.l0), ValuesB(pr, g.b, g.l0, g.j0), g.len))
    {
      ghost var c := ValuesC(pr, coreIdx, g.i0, g.b, g.j0, t);
      ghost var fa, fb := ValuesA(pr, g.i0, g.b, g.l0), ValuesB(pr, g.b, g.l0, g.j0);
      StartsAtZero(pr, coreIdx, g.i0, g.b, g.j0);
      if t > 0 {
        NothingDone(l0C, g.rows, g.cols, c, fa, fb);
      }
      MultiplyBlock(e, g, t, c, fa, fb);
    }

    method GetPart(tile: Tile, t: nat) returns (g: Part)
      requires pr.Valid() && tile.batch < pr.p.batch && tile.m < pr.p.mLoop && tile.n < pr.p.nLoop && t < pr.p.kLoop
      ensures g == PartOf(pr.p, coreIdx, tile, t) && PartOk(pr, g)
    {
      PartsAreOk(pr, coreIdx, tile, t);
      g := PartOf(pr.p, coreIdx, tile, t);
    }

    method GetBlockIdx(index: nat) returns (tile: Tile)
      requires pr.Valid() && index < pr.p.CoreLoop()
      ensures tile == TileAt(pr.p, index)
      ensures tile.batch < pr.p.batch && tile.m < pr.p.mLoop && tile.n < pr.p.nLoop
    {
      tile := TileAt(pr.p, index);
    }

    method Prefetch(loopIdx: nat, tile: Tile, t: nat)
      requires pr.Valid() && loopIdx < pr.p.CoreLoop() && t < pr.p.kLoop && numCore > 0
      requires tile == TileAt(pr.p, loopIdx)
      requires Shape() && FreeSlot(pingFlag)
      modifies `l1A, `l1B, `l1Flag
      ensures Shape()
      ensures var e := 1 - pingFlag;
              && l1Flag[e] == old(l1Flag[e]) && l1Flag[e + 2] == old(l1Flag[e + 2])
              && l1A[e] == old(l1A[e]) && l1B[e] == old(l1B[e])
      ensures match NextPart(pr.p, coreIdx, numCore, loopIdx, t)
              case Some(g) => InSlot(pingFlag, g)
              case None => FreeSlot(pingFlag)
    {
      if t < pr.p.kLoop - 1 {
        var g := GetPart(tile, t + 1);
        LoadL1(pingFlag, g);
      }
      if t == pr.p.kLoop - 1 && loopIdx + numCore < pr.p.CoreLoop() {
        var next := GetBlockIdx(loopIdx + numCore);
        var g := GetPart(next, 0);
        LoadL1(pingFlag, g);
      }
    }

    // Writes the accumulator to C, row by row, rows lying `stride` apart.
    method CopyCcToGm(i0: nat, b: nat, j0: nat, rows: nat, cols: nat, ghost v: Values)
      requires Holds(l0C, rows, cols, v) && gmC.Length == pr.p.m * (pr.p.batch * pr.p.n)
      requires b < pr.p.batch && rows > 0 && cols > 0 && i0 + rows <= pr.p.m && j0 + cols <= pr.p.n
      modifies gmC
      ensures Written(pr.p, old(gmC[..]), gmC[..], i0, b, j0, rows, cols, v)
    {
      var p := pr.p;
      StrideSum(i0, 0, p.batch, p.n);
      var offset: nat, stride := i0 * p.batch * p.n + b * p.n + j0, p.n * p.batch;
      var r := 0;
      while r < rows
        invariant r <= rows
        invariant Written(p, old(gmC[..]), gmC[..], i0, b, j0, r, cols, v)
      {
        ghost var mid := gmC[..];
        RowPlace(p, i0, b, j0, r, offset, stride, cols);
        DataCopy(gmC, offset + r * stride, l0C[r]);
        RowWritten(p, old(gmC[..]), mid, gmC[..], i0, b, j0, r, cols, v, l0C[r]);
        r := r + 1;
      }
    }

    // All k blocks of one tile; meanwhile the first block of the next tile is loaded.
    method MultiplyTile(loopIdx: nat, tile: Tile, ghost g: Part)
      requires pr.Valid() && loopIdx < pr.p.CoreLoop() && numCore > 0 && pr.p.kLoop > 0
      requires tile == TileAt(pr.p, loopIdx) && g == PartOf(pr.p, coreIdx, tile, 0)
      requires Between(Some(g)) && cFlag == Drained
      modifies `pingFlag, `l1A, `l1B, `l0A, `l0B, `l0C, `l0Flag, `l1Flag, `cFlag
      ensures Between(FirstPart(pr.p, coreIdx, loopIdx + numCore)) && cFlag == Filling
      ensures Holds(l0C, g.rows, g.cols, ValuesC(pr, coreIdx, g.i0, g.b, g.j0, pr.p.kLoop))
    {
      var t := 0;
      ghost var gt := g;
      while t < pr.p.kLoop
        invariant t <= pr.p.kLoop
        invariant cFlag == if t == 0 then Drained else Filling
        invariant t < pr.p.kLoop ==> gt == PartOf(pr.p, coreIdx, tile, t) && Between(Some(gt))
        invariant SameOrigin(g, gt)
        invariant t == pr.p.kLoop ==> Between(FirstPart(pr.p, coreIdx, loopIdx + numCore))
        invariant t > 0 ==> Holds(l0C, g.rows, g.cols, ValuesC(pr, coreIdx, g.i0, g.b, g.j0, t))
      {
        Step(loopIdx, tile, t, gt);
        gt := NextGhost(pr.p, coreIdx, numCore, loopIdx, tile, t, gt);
        t := t + 1;
      }
    }

    // One tile: all its k blocks, and the write-back.
    method ProcessTile(loopIdx: nat, tile: Tile, g: Part)
      requires pr.Valid() && loopIdx < pr.p.CoreLoop() && numCore > 0 && pr.p.kLoop > 0
      requires gmC.Length == pr.p.m * (pr.p.batch * pr.p.n)
      requires tile == TileAt(pr.p, loopIdx) && g == PartOf(pr.p, coreIdx, tile, 0) && PartOk(pr, g)
      requires Between(Some(g)) && cFlag == Drained
      modifies this, gmC
      ensures Between(FirstPart(pr.p, coreIdx, loopIdx + numCore)) && cFlag == Drained
      ensures Written(pr.p, old(gmC[..]), gmC[..], g.i0, g.b, g.j0, g.rows, g.cols,
                      ValuesC(pr, coreIdx, g.i0, g.b, g.j0, pr.p.kLoop))
    {
      MultiplyTile(loopIdx, tile, g);
      cFlag := Filled;
      cFlag := Using;
      CopyCcToGm(g.i0, g.b, g.j0, g.rows, g.cols, ValuesC(pr, coreIdx, g.i0, g.b, g.j0, pr.p.kLoop));
      cFlag := Drained;
    }

    // Tile number `loopIdx`, which this core also loads itself when it is the core's first.
    method TileStep(loopIdx: nat) returns (g: Part)
      requires pr.Valid() && loopIdx < pr.p.CoreLoop() && numCore > 0
      requires gmC.Length == pr.p.m * (pr.p.batch * pr.p.n)
      requires Between(if loopIdx == coreIdx then None else FirstPart(pr.p, coreIdx, loopIdx)) && cFlag == Drained
      modifies this, gmC
      ensures Between(FirstPart(pr.p, coreIdx, loopIdx + numCore)) && cFlag == Drained
      ensures pr.p.kLoop > 0 && g == PartOf(pr.p, coreIdx, TileAt(pr.p, loopIdx), 0)
      ensures Written(pr.p, old(gmC[..]), gmC[..], g.i0, g.b, g.j0, g.rows, g.cols,
                      ValuesC(pr, coreIdx, g.i0, g.b, g.j0, pr.p.kLoop))
    {
      pr.p.LoopsPositive();
      var tile := GetBlockIdx(loopIdx);
      g := GetPart(tile, 0);
      if loopIdx == coreIdx {
        LoadL1(1 - pingFlag, g);
      }
      ProcessTile(loopIdx, tile, g);
    }

    method DoTile(loopIdx: nat, ghost start: seq<int>)
      requires pr.Valid() && loopIdx < pr.p.CoreLoop() && numCore > 0 && loopIdx % numCore == coreIdx
      requires gmC.Length == pr.p.m * (pr.p.batch * pr.p.n)
      requires Between(if loopIdx == coreIdx then None else FirstPart(pr.p, coreIdx, loopIdx)) && cFlag == Drained
      requires Done(pr, coreIdx, numCore, loopIdx, start, gmC[..])
      modifies this, gmC
      ensures Between(FirstPart(pr.p, coreIdx, loopIdx + numCore)) && cFlag == Drained
      ensures Done(pr, coreIdx, numCore, loopIdx + numCore, start, gmC[..])
      ensures (loopIdx + numCore) % numCore == coreIdx
    {
      ghost var before := gmC[..];
      var g := TileStep(loopIdx);
      PartDone(pr, coreIdx, numCore, loopIdx, g, start, before, gmC[..]);
      StrideNext(0, coreIdx, numCore, loopIdx);
    }

    // Every tile whose number is this core's modulo the number of cores.
    method Process()
      requires pr.Valid() && coreIdx < numCore && Shape() && NoFlagUp()
      requires gmC.Length == pr.p.m * (pr.p.batch * pr.p.n)
      modifies this, gmC
      ensures Shape() && NoFlagUp()
      ensures Done(pr, coreIdx, numCore, pr.p.CoreLoop(), old(gmC[..]), gmC[..])
    {
      SetFlags();
      var loopIdx := coreIdx;
      DivModOfSum(0, numCore, coreIdx);
      NothingOwnedBelow(pr, coreIdx, numCore, gmC[..]);
      while loopIdx < pr.p.CoreLoop()
        invariant loopIdx >= coreIdx && loopIdx % numCore == coreIdx
        invariant Between(if loopIdx == coreIdx then None else FirstPart(pr.p, coreIdx, loopIdx)) && cFlag == Drained
        invariant Done(pr, coreIdx, numCore, loopIdx, old(gmC[..]), gmC[..])
        decreases pr.p.CoreLoop() - loopIdx
      {
        DoTile(loopIdx, old(gmC[..]));
        loopIdx := loopIdx + numCore;
      }
      DoneToTheEnd(pr, coreIdx, numCore, loopIdx, old(gmC[..]), gmC[..]);
      WaitFlags();
    }

    ghost predicate NoFlagUp()
      reads this
    {
      l1Flag == [Filling, Filling, Filling, Filling] && l0Flag == [Filling, Filling] && cFlag == Filling
    }

    method SetFlags()
      requires Shape() && NoFlagUp()
      modifies `l1Flag, `l0Flag, `cFlag
      ensures Between(None) && cFlag == Drained
    {
      l1Flag := [Drained, Drained, Drained, Drained];
      cFlag := Drained;
      l0Flag := [Drained, Drained];
    }

    method WaitFlags()
      requires Between(None) && cFlag == Drained
      modifies `l1Flag, `l0Flag, `cFlag
      ensures Shape() && NoFlagUp()
    {
      l0Flag := [Filling, Filling];
      l1Flag := [Filling, Filling, Filling, Filling];
      cFlag := Filling;
    }
  }

  // The kernel on all cores: afterwards C holds the whole product, whatever it held before.
  method Launch(pr: Problem, numCore: nat, gmC: array<int>)
    requires pr.Valid() && numCore > 0 && gmC.Length == pr.p.m * (pr.p.batch * pr.p.n)
    modifies gmC
    ensures forall i: nat, b: nat, j: nat :: i < pr.p.m && b < pr.p.batch && j < pr.p.n ==>
              AddrC(pr.p, i, b, j) < gmC.Length && gmC[AddrC(pr.p, i, b, j)] == pr.Dot(i, b, j, 0, pr.p.k)
  {
    var c := 0;
    StartOfLaunch(pr, numCore, gmC[..]);
    while c < numCore
      invariant c <= numCore
      invariant Launched(pr, numCore, c, old(gmC[..]), gmC[..])
    {
      ghost var before := gmC[..];
      var kernel := new PpMatmulEinSum(pr, c, numCore, gmC);
      kernel.Process();
      CoreDone(pr, numCore, c, pr.p.CoreLoop(), old(gmC[..]), before, gmC[..]);
      c := c + 1;
    }
    forall i: nat, b: nat, j: nat | i < pr.p.m && b < pr.p.batch && j < pr.p.n
      ensures AddrC(pr.p, i, b, j) < gmC.Length && gmC[AddrC(pr.p, i, b, j)] == pr.Dot(i, b, j, 0, pr.p.k)
    {
      AllDone(pr, numCore, old(gmC[..]), gmC[..], i, b, j);
    }
  }

  lemma NothingDone(x: Matrix, rows: nat, cols: nat, base: Values, fa: Values, fb: Values)
    requires Holds(x, rows, cols, base)
    ensures Holds(x, rows, cols, Accumulated(base, fa, fb, 0))
  {
  }
}
