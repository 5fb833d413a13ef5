/** Writing tiles of C back: which addresses a tile covers, and which tile covers an address. */
module PpMatmulOutput {
  import opened Arith
  import opened Buffers
  import opened Swizzle
  import opened MatmulSpec
  import opened TileMath
  import opened PpMatmulTiles

  ghost predicate IsCell(p: Tiling, i: int, b: int, j: int) {
    0 <= i < p.m && 0 <= b < p.batch && 0 <= j < p.n
  }

  ghost predicate InRect(i: int, b: int, j: int, i0: int, b0: int, j0: int, rows: int, cols: int) {
    b == b0 && i0 <= i < i0 + rows && j0 <= j < j0 + cols
  }

  // C[i, b, j] of a flat buffer.
  ghost function CellOf(p: Tiling, gm: seq<int>, i: int, b: int, j: int): int {
    if IsCell(p, i, b, j) && AddrC(p, i, b, j) < |gm| then gm[AddrC(p, i, b, j)] else 0
  }

  // `after` is `before` with v written at the cells of one rectangle.
  ghost predicate Written(p: Tiling, before: seq<int>, after: seq<int>,
                          i0: int, b0: int, j0: int, rows: int, cols: int, v: Values) {
    && |after| == |before| == p.m * (p.batch * p.n)
    && forall i, b, j :: IsCell(p, i, b, j) ==>
         CellOf(p, after, i, b, j)
         == if InRect(i, b, j, i0, b0, j0, rows, cols) then v(i - i0, j - j0) else CellOf(p, before, i, b, j)
  }

  // Equal mixed-radix numbers have equal digits.
  lemma DigitsUnique(x: nat, y: nat, z: nat, x': nat, y': nat, z': nat, Y: nat, Z: nat)
    requires y < Y && y' < Y && z < Z && z' < Z
    requires x * (Y * Z) + y * Z + z == x' * (Y * Z) + y' * Z + z'
    ensures x == x' && y == y' && z == z'
  {
    MixedRadix(0, y, z, 1, Y, Z);
    MixedRadix(0, y', z', 1, Y, Z);
    QuotientUnique(x * (Y * Z) + y * Z + z, Y * Z, x, x');
    QuotientUnique(y * Z + z, Z, y, y');
  }

  // An address inside a row piece of C is a cell of that piece.
  lemma RowCells(p: Tiling, i: nat, b: nat, j: nat, i1: nat, b1: nat, j0: nat, cols: nat)
    requires IsCell(p, i, b, j) && IsCell(p, i1, b1, j0) && cols > 0 && j0 + cols <= p.n
    ensures AddrC(p, i1, b1, j0) <= AddrC(p, i, b, j) < AddrC(p, i1, b1, j0) + cols
       <==> InRect(i, b, j, i1, b1, j0, 1, cols)
    ensures InRect(i, b, j, i1, b1, j0, 1, cols) ==> AddrC(p, i, b, j) - AddrC(p, i1, b1, j0) == j - j0
  {
    var d := AddrC(p, i, b, j) - AddrC(p, i1, b1, j0);
    if 0 <= d < cols {
      DigitsUnique(i, b, j, i1, b1, j0 + d, p.batch, p.n);
    }
  }

  // One more row of a tile.
  lemma RowWritten(p: Tiling, before: seq<int>, mid: seq<int>, after: seq<int>,
                   i0: nat, b0: nat, j0: nat, r: nat, cols: nat, v: Values, row: seq<int>)
    requires Written(p, before, mid, i0, b0, j0, r, cols, v)
    requires IsCell(p, i0 + r, b0, j0) && cols > 0 && j0 + cols <= p.n
    requires |row| == cols && forall c :: 0 <= c < cols ==> row[c] == v(r, c)
    requires AddrC(p, i0 + r, b0, j0) + cols <= |mid| && after == Patch(mid, AddrC(p, i0 + r, b0, j0), row)
    ensures Written(p, before, after, i0, b0, j0, r + 1, cols, v)
  {
    forall i, b, j | IsCell(p, i, b, j)
      ensures CellOf(p, after, i, b, j)
           == if InRect(i, b, j, i0, b0, j0, r + 1, cols) then v(i - i0, j - j0) else CellOf(p, before, i, b, j)
    {
      RowCells(p, i, b, j, i0 + r, b0, j0, cols);
      AddrBounds(p.(k := 1), i, b, 0, j);
      OneCell(p, mid, after, i, b, j, AddrC(p, i0 + r, b0, j0), row);
    }
  }

  lemma OneCell(p: Tiling, mid: seq<int>, after: seq<int>, i: int, b: int, j: int, base: nat, row: seq<int>)
    requires IsCell(p, i, b, j) && AddrC(p, i, b, j) < |mid|
    requires base + |row| <= |mid| && after == Patch(mid, base, row)
    ensures CellOf(p, after, i, b, j)
         == if base <= AddrC(p, i, b, j) < base + |row| then row[AddrC(p, i, b, j) - base] else CellOf(p, mid, i, b, j)
  {
  }

  lemma QuotientFits(i: nat, x: nat, x0: nat, loop: nat)
    requires x0 > 0 && i < x && loop == CeilDiv(x, x0)
    ensures 0 <= i / x0 < loop
  {
    DivBounds(i, x0);
    CeilDivGalois(x, x0, i / x0);
  }

  // The tile that covers a cell, and its number.
  function TileOfCell(p: Tiling, i: nat, b: nat, j: nat): (t: Tile)
    requires p.m0 > 0 && p.n0 > 0
  {
    DivModIs(i, p.m0);
    DivModIs(j, p.n0);
    Tile(b, i / p.m0, j / p.n0)
  }

  lemma TileOfCellFits(p: Tiling, i: nat, b: nat, j: nat)
    requires p.Valid() && i < p.m && j < p.n
    ensures TileOfCell(p, i, b, j).m < p.mLoop && TileOfCell(p, i, b, j).n < p.nLoop
  {
    QuotientFits(i, p.m, p.m0, p.mLoop);
    QuotientFits(j, p.n, p.n0, p.nLoop);
  }

  ghost function Owner(p: Tiling, i: nat, b: nat, j: nat): int
    requires p.Valid() && i < p.m && b < p.batch && j < p.n
  {
    TileOfCellFits(p, i, b, j);
    IndexOf(p.swizzleDir, TileOfCell(p, i, b, j), p.mLoop, p.nLoop, p.swizzleCnt)
  }

  // A tile covers exactly the cells whose quotients name it.
  lemma Covers(x: nat, x0: nat, loop: nat, t: nat, i: nat)
    requires x0 > 0 && loop == CeilDiv(x, x0) && t < loop && i < x
    ensures t * x0 <= i < t * x0 + (if t == loop - 1 then x - t * x0 else x0) <==> i / x0 == t
  {
    TileExtent(x, x0, loop, t);
    DivBounds(i, x0);
    var q := i / x0;
    if t * x0 <= i < t * x0 + x0 {
      QuotientUnique(i, x0, q, t);
    }
    CeilDivGalois(x, x0, q);
    MulOrder(loop, q, x0);
  }

  // A tile covers exactly the cells whose owner it is.
  lemma OwnerIsTile(p: Tiling, index: nat, t: Tile, i: nat, b: nat, j: nat)
    requires p.Valid() && index < p.CoreLoop() && i < p.m && b < p.batch && j < p.n
    requires t == TileOf(p.swizzleDir, index, p.batch, p.mLoop, p.nLoop, p.swizzleCnt)
    ensures 0 <= Owner(p, i, b, j) < p.CoreLoop()
    ensures InRect(i, b, j, t.m * p.m0, t.batch, t.n * p.n0, p.MActual(t.m), p.NActual(t.n))
       <==> Owner(p, i, b, j) == index
  {
    TileOfCellFits(p, i, b, j);
    var u := TileOfCell(p, i, b, j);
    SameTile(p, index, t, u);
    CoversCell(p, t, i, b, j);
  }

  lemma CoversCell(p: Tiling, t: Tile, i: nat, b: nat, j: nat)
    requires p.Valid() && i < p.m && j < p.n && t.m < p.mLoop && t.n < p.nLoop
    ensures InRect(i, b, j, t.m * p.m0, t.batch, t.n * p.n0, p.MActual(t.m), p.NActual(t.n))
       <==> TileOfCell(p, i, b, j) == t
  {
    Covers(p.m, p.m0, p.mLoop, t.m, i);
    Covers(p.n, p.n0, p.nLoop, t.n, j);
  }

  lemma SameTile(p: Tiling, index: nat, t: Tile, u: Tile)
    requires p.Valid() && index < p.CoreLoop() && u.batch < p.batch && u.m < p.mLoop && u.n < p.nLoop
    requires t == TileOf(p.swizzleDir, index, p.batch, p.mLoop, p.nLoop, p.swizzleCnt)
    ensures 0 <= IndexOf(p.swizzleDir, u, p.mLoop, p.nLoop, p.swizzleCnt) < p.CoreLoop()
    ensures t == u <==> IndexOf(p.swizzleDir, u, p.mLoop, p.nLoop, p.swizzleCnt) == index
  {
    IndexOfIsInverse(p.swizzleDir, u, p.batch, p.mLoop, p.nLoop, p.swizzleCnt);
    TileOfIsBijection(p.swizzleDir, index, p.batch, p.mLoop, p.nLoop, p.swizzleCnt);
  }

  // C after core `core` has done its tiles below number `limit`: those hold the product, the rest is as at the start.
  ghost predicate Done(pr: Problem, core: nat, numCore: nat, limit: nat, start: seq<int>, now: seq<int>)
    requires pr.Valid() && numCore > 0
  {
    && |now| == |start| == pr.p.m * (pr.p.batch * pr.p.n)
    && forall i: nat, b: nat, j: nat :: i < pr.p.m && b < pr.p.batch && j < pr.p.n ==>
         CellOf(pr.p, now, i, b, j)
         == if Owner(pr.p, i, b, j) % numCore == core && Owner(pr.p, i, b, j) < limit
            then pr.Dot(i, b, j, 0, pr.p.k) else CellOf(pr.p, start, i, b, j)
  }

  // A tile written back with its full sum.
  lemma TileDone(pr: Problem, core: nat, numCore: nat, index: nat, t: Tile, i0: nat, j0: nat, rows: nat, cols: nat,
                 start: seq<int>, before: seq<int>, after: seq<int>)
    requires pr.Valid() && numCore > 0 && index < pr.p.CoreLoop() && index % numCore == core
    requires t == TileOf(pr.p.swizzleDir, index, pr.p.batch, pr.p.mLoop, pr.p.nLoop, pr.p.swizzleCnt)
    requires i0 == t.m * pr.p.m0 && j0 == t.n * pr.p.n0 && rows == pr.p.MActual(t.m) && cols == pr.p.NActual(t.n)
    requires pr.p.kLoop > 0
    requires Written(pr.p, before, after, i0, t.batch, j0, rows, cols, ValuesC(pr, core, i0, t.batch, j0, pr.p.kLoop))
    requires Done(pr, core, numCore, index, start, before)
    ensures Done(pr, core, numCore, index + numCore, start, after)
  {
    forall i: nat, b: nat, j: nat | i < pr.p.m && b < pr.p.batch && j < pr.p.n
      ensures CellOf(pr.p, after, i, b, j)
           == if Owner(pr.p, i, b, j) % numCore == core && Owner(pr.p, i, b, j) < index + numCore
              then pr.Dot(i, b, j, 0, pr.p.k) else CellOf(pr.p, start, i, b, j)
    {
      OwnerIsTile(pr.p, index, t, i, b, j);
      StrideNext(Owner(pr.p, i, b, j), core, numCore, index);
      pr.RotationGivesSum(core, i, b, j);
    }
  }

  // Doing more tiles than there are changes nothing.
  lemma DoneToTheEnd(pr: Problem, core: nat, numCore: nat, limit: nat, start: seq<int>, now: seq<int>)
    requires pr.Valid() && numCore > 0 && limit >= pr.p.CoreLoop() && Done(pr, core, numCore, limit, start, now)
    ensures Done(pr, core, numCore, pr.p.CoreLoop(), start, now)
  {
    forall i: nat, b: nat, j: nat | i < pr.p.m && b < pr.p.batch && j < pr.p.n
      ensures 0 <= Owner(pr.p, i, b, j) < pr.p.CoreLoop()
    {
      OwnerFits(pr.p, i, b, j);
    }
  }

  lemma OwnerFits(p: Tiling, i: nat, b: nat, j: nat)
    requires p.Valid() && i < p.m && b < p.batch && j < p.n
    ensures 0 <= Owner(p, i, b, j) < p.CoreLoop()
  {
    TileOfCellFits(p, i, b, j);
    IndexOfIsInverse(p.swizzleDir, TileOfCell(p, i, b, j), p.batch, p.mLoop, p.nLoop, p.swizzleCnt);
  }

  lemma NothingOwnedBelow(pr: Problem, core: nat, numCore: nat, start: seq<int>)
    requires pr.Valid() && core < numCore && |start| == pr.p.m * (pr.p.batch * pr.p.n)
    ensures Done(pr, core, numCore, core, start, start)
  {
    forall o: nat | o % numCore == core
      ensures o >= core
    {
      DivModIs(o, numCore);
    }
    forall i: nat, b: nat, j: nat | i < pr.p.m && b < pr.p.batch && j < pr.p.n
      ensures 0 <= Owner(pr.p, i, b, j)
    {
      OwnerFits(pr.p, i, b, j);
    }
  }

  lemma StartOfLaunch(pr: Problem, numCore: nat, start: seq<int>)
    requires pr.Valid() && numCore > 0 && |start| == pr.p.m * (pr.p.batch * pr.p.n)
    ensures Launched(pr, numCore, 0, start, start)
  {
  }

  // C after cores below c have run.
  ghost predicate Launched(pr: Problem, numCore: nat, c: nat, start: seq<int>, now: seq<int>)
    requires pr.Valid() && numCore > 0
  {
    && |now| == |start| == pr.p.m * (pr.p.batch * pr.p.n)
    && forall i: nat, b: nat, j: nat :: i < pr.p.m && b < pr.p.batch && j < pr.p.n ==>
         CellOf(pr.p, now, i, b, j)
         == if Owner(pr.p, i, b, j) % numCore < c
            then pr.Dot(i, b, j, 0, pr.p.k) else CellOf(pr.p, start, i, b, j)
  }

  lemma CoreDone(pr: Problem, numCore: nat, c: nat, limit: nat, start: seq<int>, before: seq<int>, after: seq<int>)
    requires pr.Valid() && c < numCore && limit >= pr.p.CoreLoop()
    requires Launched(pr, numCore, c, start, before) && Done(pr, c, numCore, limit, before, after)
    ensures Launched(pr, numCore, c + 1, start, after)
  {
    forall i: nat, b: nat, j: nat | i < pr.p.m && b < pr.p.batch && j < pr.p.n
      ensures CellOf(pr.p, after, i, b, j)
           == if Owner(pr.p, i, b, j) % numCore < c + 1
              then pr.Dot(i, b, j, 0, pr.p.k) else CellOf(pr.p, start, i, b, j)
    {
      OwnerFits(pr.p, i, b, j);
    }
  }

  lemma AllDone(pr: Problem, numCore: nat, start: seq<int>, now: seq<int>, i: nat, b: nat, j: nat)
    requires pr.Valid() && numCore > 0 && i < pr.p.m && b < pr.p.batch && j < pr.p.n
    requires Launched(pr, numCore, numCore, start, now)
    ensures AddrC(pr.p, i, b, j) < |now| && now[AddrC(pr.p, i, b, j)] == pr.Dot(i, b, j, 0, pr.p.k)
  {
    AddrBounds(pr.p.(k := 1), i, b, 0, j);
    OwnerFits(pr.p, i, b, j);
    DivModIs(Owner(pr.p, i, b, j), numCore);
    assert CellOf(pr.p, now, i, b, j) == pr.Dot(i, b, j, 0, pr.p.k);
  }
}
