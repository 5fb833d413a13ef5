/** The cube core's key load from a paged cache: rows are gathered page by page into two fractal halves. */
module KeyGather {
  import opened Arith
  import opened Buffers

  const S2_BASIC_BLOCK_L0: nat := 128
  const D_BASIC_BLOCK_L0: nat := 128
  const BLOCK_CUBE: nat := 16
  const KEY_BUFFER_OFFSET: nat := 32768

  function CeilAlign(a: nat, b: nat): nat
    requires b > 0
  {
    CeilDiv(a, b) * b
  }

  // One load: `rows` rows of the sequence from row `gm` on, into the slot that begins at `slot`; pages
  // hold `blk` rows and `table` lists the sequence's pages.
  datatype Load = Load(rows: nat, gm: nat, slot: nat, blk: nat, table: seq<nat>)
  {
    // At most two halves, and every row's page is listed and lies in the cache.
    ghost predicate Valid<T>(key: seq<T>) {
      rows <= 2 * S2_BASIC_BLOCK_L0 && blk > 0 && forall i :: 0 <= i < rows ==> RowHeld(key, i)
    }

    ghost predicate RowHeld<T>(key: seq<T>, i: nat)
      requires blk > 0
    {
      (gm + i) / blk < |table| && KeyAt(i) + D_BASIC_BLOCK_L0 <= |key|
    }

    // Where row i of the load lies in the cache.
    function KeyAt(i: nat): nat
      requires blk > 0 && (gm + i) / blk < |table|
    {
      (TableAt(table[(gm + i) / blk], blk) + (gm + i) % blk) * D_BASIC_BLOCK_L0
    }

    // Where row i's half begins, and the row's number in it.
    function HalfAt(i: nat): nat {
      slot + if i >= S2_BASIC_BLOCK_L0 then S2_BASIC_BLOCK_L0 * D_BASIC_BLOCK_L0 else 0
    }

    function RowInHalf(i: nat): nat {
      if i >= S2_BASIC_BLOCK_L0 then i - S2_BASIC_BLOCK_L0 else i
    }

    function RowAt(i: nat): nat {
      HalfAt(i) + RowInHalf(i) * BLOCK_CUBE
    }

    function NzC0Stride(i: nat): nat {
      if i >= S2_BASIC_BLOCK_L0 then (if i < rows then CeilAlign(rows - S2_BASIC_BLOCK_L0, BLOCK_CUBE) else 0)
      else if rows > S2_BASIC_BLOCK_L0 then S2_BASIC_BLOCK_L0 else CeilAlign(rows, BLOCK_CUBE)
    }

    // Where column d of row i belongs: sixteen columns at a time, row by row.
    function Place(i: nat, d: nat): nat {
      RowAt(i) + TableAt(d / BLOCK_CUBE, NzC0Stride(i)) * BLOCK_CUBE + d % BLOCK_CUBE
    }

    function From(): nat -> nat {
      i => if blk > 0 && (gm + i) / blk < |table| then KeyAt(i) else 0
    }

    function At(): nat -> nat {
      i => RowAt(i)
    }

    function Strides(): nat -> nat {
      i => NzC0Stride(i)
    }
  }

  // A row in fractal order: eight pieces, `stride` rows apart.
  function NzRow<T>(row: seq<T>, at: nat, stride: nat): (r: seq<Write<T>>)
    requires |row| == D_BASIC_BLOCK_L0
    ensures |r| == 8
    ensures forall q :: 0 <= q < 8 ==> r[q] == Write(at + TableAt(q, stride) * BLOCK_CUBE, Cut(row, q * 16, 16))
  {
    seq(8, q requires 0 <= q < 8 => Write(at + TableAt(q, stride) * BLOCK_CUBE, Cut(row, q * 16, 16)))
  }

  // n rows of src, each in fractal order.
  function NzRows<T>(src: seq<T>, start: nat, n: nat, at: nat, stride: nat): (r: seq<Write<T>>)
    requires start + n * D_BASIC_BLOCK_L0 <= |src|
    ensures |r| == 8 * n
    decreases n
  {
    if n == 0 then [] else
      NzRows(src, start, n - 1, at, stride)
      + NzRow(Cut(src, start + (n - 1) * D_BASIC_BLOCK_L0, D_BASIC_BLOCK_L0), at + (n - 1) * BLOCK_CUBE, stride)
  }

  ghost predicate AllHeld<T>(key: seq<T>, from: nat -> nat, n: nat) {
    forall i :: 0 <= i < n ==> from(i) + D_BASIC_BLOCK_L0 <= |key|
  }

  // Rows 0 .. n - 1: row i is read at from(i) and laid down at `at(i)`, pieces stride(i) rows apart.
  function Pieces<T>(key: seq<T>, n: nat, from: nat -> nat, at: nat -> nat, stride: nat -> nat): (r: seq<Write<T>>)
    requires AllHeld(key, from, n)
    ensures |r| == 8 * n
    decreases n
  {
    if n == 0 then [] else
      Pieces(key, n - 1, from, at, stride)
      + NzRow(Cut(key, from(n - 1), D_BASIC_BLOCK_L0), at(n - 1), stride(n - 1))
  }

  // Rows i .. i + n - 1 are read in one go: they are neighbours in the cache and in the slot.
  ghost predicate Chunk(from: nat -> nat, at: nat -> nat, stride: nat -> nat, i: nat, n: nat) {
    forall r :: 0 <= r < n ==> InLine(from, at, stride, i, r)
  }

  ghost predicate InLine(from: nat -> nat, at: nat -> nat, stride: nat -> nat, i: nat, r: nat) {
    from(i + r) == from(i) + r * D_BASIC_BLOCK_L0 && at(i + r) == at(i) + r * BLOCK_CUBE && stride(i + r) == stride(i)
  }

  lemma PiecesStep<T>(key: seq<T>, n: nat, from: nat -> nat, at: nat -> nat, stride: nat -> nat,
                      src: nat, dst: nat, width: nat)
    requires AllHeld(key, from, n + 1) && src == from(n) && dst == at(n) && width == stride(n)
    ensures src + D_BASIC_BLOCK_L0 <= |key|
    ensures Pieces(key, n + 1, from, at, stride) ==
            Pieces(key, n, from, at, stride) + NzRow(Cut(key, src, D_BASIC_BLOCK_L0), dst, width)
  {
  }

  lemma NzRowsStep<T>(src: seq<T>, start: nat, n: nat, at: nat, stride: nat, from: nat, dst: nat)
    requires start + (n + 1) * D_BASIC_BLOCK_L0 <= |src|
    requires from == start + n * D_BASIC_BLOCK_L0 && dst == at + n * BLOCK_CUBE
    ensures NzRows(src, start, n + 1, at, stride) ==
            NzRows(src, start, n, at, stride) + NzRow(Cut(src, from, D_BASIC_BLOCK_L0), dst, stride)
  {
  }

  lemma Extend<T>(whole: seq<T>, whole': seq<T>, a: seq<T>, b: seq<T>, b': seq<T>, c: seq<T>)
    requires whole == a + b && whole' == whole + c && b' == b + c
    ensures whole' == a + b'
  {
  }

  lemma AddNothing<T>(a: seq<T>, b: seq<T>)
    requires b == []
    ensures a == a + b
  {
  }

  // Such a chunk continues the pieces laid down so far.
  lemma {:induction false} ChunkContinues<T>(key: seq<T>, i: nat, n: nat, from: nat -> nat, at: nat -> nat,
                                             stride: nat -> nat)
    requires AllHeld(key, from, i + n) && Chunk(from, at, stride, i, n) && from(i) + n * D_BASIC_BLOCK_L0 <= |key|
    ensures Pieces(key, i + n, from, at, stride) ==
            Pieces(key, i, from, at, stride) + NzRows(key, from(i), n, at(i), stride(i))
    decreases n
  {
    var before := Pieces(key, i, from, at, stride);
    if n == 0 {
      AddNothing(before, NzRows(key, from(i), 0, at(i), stride(i)));
    } else {
      ChunkContinues(key, i, n - 1, from, at, stride);
      OneMore(key, i, n, from, at, stride, before, from(i), at(i), stride(i));
    }
  }

  lemma OneMore<T>(key: seq<T>, i: nat, n: nat, from: nat -> nat, at: nat -> nat, stride: nat -> nat,
                   before: seq<Write<T>>, src: nat, dst: nat, width: nat)
    requires AllHeld(key, from, i + n) && n > 0 && src + n * D_BASIC_BLOCK_L0 <= |key|
    requires InLine(from, at, stride, i, n - 1) && src == from(i) && dst == at(i) && width == stride(i)
    requires Pieces(key, i + (n - 1), from, at, stride) == before + NzRows(key, src, n - 1, dst, width)
    ensures Pieces(key, i + n, from, at, stride) == before + NzRows(key, src, n, dst, width)
  {
    var m, f, a := i + (n - 1), src + (n - 1) * D_BASIC_BLOCK_L0, dst + (n - 1) * BLOCK_CUBE;
    PiecesStep(key, m, from, at, stride, f, a, width);
    NzRowsStep(key, src, n - 1, dst, width, f, a);
    Extend(Pieces(key, m, from, at, stride), Pieces(key, m + 1, from, at, stride), before,
           NzRows(key, src, n - 1, dst, width), NzRows(key, src, n, dst, width),
           NzRow(Cut(key, f, D_BASIC_BLOCK_L0), a, width));
  }

  lemma FitsSoFar<T>(size: nat, ws: seq<Write<T>>, j: nat)
    requires AllFit(size, ws) && j <= |ws|
    ensures AllFit(size, ws[..j])
  {
  }

  lemma OneWrite<T>(s: seq<T>, ws: seq<Write<T>>, j: nat)
    requires AllFit(|s|, ws) && j < |ws|
    ensures AllFit(|s|, ws[..j]) && AllFit(|s|, ws[..j + 1]) && ws[j].End() <= |s|
    ensures PutAll(s, ws[..j + 1]) == Patch(PutAll(s, ws[..j]), ws[j].at, ws[j].row)
  {
    FitsSoFar(|s|, ws, j);
    FitsSoFar(|s|, ws, j + 1);
    assert ws[..j + 1][..j] == ws[..j] && ws[..j + 1][j] == ws[j];
  }

  // The copy instruction that turns n rows of src into fractal order, pieces `stride` rows apart.
  method Nd2Nz<T>(dst: array<T>, src: seq<T>, start: nat, n: nat, at: nat, stride: nat)
    requires start + n * D_BASIC_BLOCK_L0 <= |src| && AllFit(dst.Length, NzRows(src, start, n, at, stride))
    modifies dst
    ensures dst[..] == PutAll(old(dst[..]), NzRows(src, start, n, at, stride))
  {
    PutEach(dst, NzRows(src, start, n, at, stride));
  }

  method PutEach<T>(dst: array<T>, ws: seq<Write<T>>)
    requires AllFit(dst.Length, ws)
    modifies dst
    ensures dst[..] == PutAll(old(dst[..]), ws)
  {
    ghost var s := dst[..];
    for j := 0 to |ws|
      invariant AllFit(dst.Length, ws[..j]) && dst[..] == PutAll(s, ws[..j])
    {
      OneWrite(s, ws, j);
      DataCopy(dst, ws[j].at, ws[j].row);
    }
    assert ws[..|ws|] == ws;
  }

  // A half has at most 128 rows, and its stride covers them.
  lemma StrideCovers(l: Load, i: nat)
    requires i < l.rows <= 2 * S2_BASIC_BLOCK_L0
    ensures l.RowInHalf(i) < l.NzC0Stride(i) <= S2_BASIC_BLOCK_L0
  {
  }

  lemma CellBound(stride: nat, q: nat, r: nat)
    requires q < 8 && r < stride <= S2_BASIC_BLOCK_L0
    ensures TableAt(q, stride) + r < 1024
  {
    MulOrder(q, 8, stride);
  }

  lemma CellsDiffer(stride: nat, q: nat, r: nat, q': nat, r': nat)
    requires r < stride && r' < stride && (q != q' || r != r')
    ensures TableAt(q, stride) + r != TableAt(q', stride) + r'
  {
    MulOrder(q, q', stride);
    MulOrder(q', q, stride);
  }

  // Piece q of row i.
  function PieceAt(l: Load, i: nat, q: nat): nat {
    l.RowAt(i) + TableAt(q, l.NzC0Stride(i)) * BLOCK_CUBE
  }

  lemma PieceInHalf(l: Load, i: nat, q: nat)
    requires i < l.rows <= 2 * S2_BASIC_BLOCK_L0 && q < 8
    ensures l.HalfAt(i) <= PieceAt(l, i, q) && PieceAt(l, i, q) + 16 <= l.HalfAt(i) + KEY_BUFFER_OFFSET / 2
  {
    StrideCovers(l, i);
    CellBound(l.NzC0Stride(i), q, l.RowInHalf(i));
  }

  // No two pieces touch.
  lemma PiecesApart(l: Load, i: nat, q: nat, i': nat, q': nat)
    requires i < l.rows <= 2 * S2_BASIC_BLOCK_L0 && q < 8 && i' < l.rows && q' < 8 && (i != i' || q != q')
    ensures PieceAt(l, i, q) + 16 <= PieceAt(l, i', q') || PieceAt(l, i', q') + 16 <= PieceAt(l, i, q)
  {
    PieceInHalf(l, i, q);
    PieceInHalf(l, i', q');
    if (i >= S2_BASIC_BLOCK_L0) == (i' >= S2_BASIC_BLOCK_L0) {
      StrideCovers(l, i);
      StrideCovers(l, i');
      CellsDiffer(l.NzC0Stride(i), q, l.RowInHalf(i), q', l.RowInHalf(i'));
    }
  }

  function PieceOf<T>(l: Load, key: seq<T>, i: nat, q: nat): Write<T>
    requires l.From()(i) + D_BASIC_BLOCK_L0 <= |key| && q < 8
  {
    Write(PieceAt(l, i, q), Cut(Cut(key, l.From()(i), D_BASIC_BLOCK_L0), q * 16, 16))
  }

  lemma {:induction false} PieceIs<T>(l: Load, key: seq<T>, n: nat, i: nat, q: nat)
    requires AllHeld(key, l.From(), n) && i < n && q < 8
    ensures Pieces(key, n, l.From(), l.At(), l.Strides())[8 * i + q] == PieceOf(l, key, i, q)
  {
    if i < n - 1 {
      PieceIs(l, key, n - 1, i, q);
    }
  }

  lemma PieceByIndex<T>(l: Load, key: seq<T>, n: nat, j: nat)
    requires AllHeld(key, l.From(), n) && n <= l.rows <= 2 * S2_BASIC_BLOCK_L0 && j < 8 * n
    ensures l.From()(j / 8) + D_BASIC_BLOCK_L0 <= |key|
    ensures Pieces(key, n, l.From(), l.At(), l.Strides())[j] == PieceOf(l, key, j / 8, j % 8)
    ensures l.slot <= PieceAt(l, j / 8, j % 8) && PieceAt(l, j / 8, j % 8) + 16 <= l.slot + KEY_BUFFER_OFFSET
  {
    PieceIs(l, key, n, j / 8, j % 8);
    PieceInHalf(l, j / 8, j % 8);
  }

  lemma AllPiecesFit<T>(l: Load, key: seq<T>, n: nat, size: nat)
    requires AllHeld(key, l.From(), n) && n <= l.rows <= 2 * S2_BASIC_BLOCK_L0 && l.slot + KEY_BUFFER_OFFSET <= size
    ensures AllFit(size, Pieces(key, n, l.From(), l.At(), l.Strides()))
  {
    forall j | 0 <= j < 8 * n
      ensures Pieces(key, n, l.From(), l.At(), l.Strides())[j].End() <= size
    {
      PieceByIndex(l, key, n, j);
    }
  }

  lemma AllPiecesApart<T>(l: Load, key: seq<T>, n: nat)
    requires AllHeld(key, l.From(), n) && n <= l.rows <= 2 * S2_BASIC_BLOCK_L0
    ensures Apart(Pieces(key, n, l.From(), l.At(), l.Strides()))
  {
    var ws := Pieces(key, n, l.From(), l.At(), l.Strides());
    forall j, k | 0 <= j < k < 8 * n
      ensures ws[j].End() <= ws[k].at || ws[k].End() <= ws[j].at
    {
      PieceByIndex(l, key, n, j);
      PieceByIndex(l, key, n, k);
      PiecesApart(l, j / 8, j % 8, k / 8, k % 8);
    }
  }

  // The page and row of a chunk's r-th row.
  lemma SamePage(l: Load, i: nat, r: nat)
    requires l.blk > 0 && (l.gm + i) % l.blk + r < l.blk && (l.gm + i) / l.blk < |l.table|
    ensures (l.gm + (i + r)) / l.blk == (l.gm + i) / l.blk
    ensures l.KeyAt(i + r) == l.KeyAt(i) + r * D_BASIC_BLOCK_L0
  {
    var p := l.gm + i;
    DivBounds(p, l.blk);
    DivUnique(p + r, l.blk, p / l.blk);
  }

  lemma HeldAll<T>(l: Load, key: seq<T>)
    requires l.Valid(key)
    ensures AllHeld(key, l.From(), l.rows)
  {
    forall i | 0 <= i < l.rows
      ensures l.From()(i) + D_BASIC_BLOCK_L0 <= |key|
    {
      assert l.RowHeld(key, i);
    }
  }

  // Rows that stay in one page and one half can be read in one go.
  lemma OneGo(l: Load, i: nat, n: nat)
    requires l.blk > 0 && n > 0 && i + n <= l.rows && (l.gm + i) % l.blk + n <= l.blk
    requires (l.gm + i) / l.blk < |l.table| && (i >= S2_BASIC_BLOCK_L0 || i + n <= S2_BASIC_BLOCK_L0)
    ensures Chunk(l.From(), l.At(), l.Strides(), i, n)
  {
    forall r | 0 <= r < n
      ensures InLine(l.From(), l.At(), l.Strides(), i, r)
    {
      SamePage(l, i, r);
    }
  }

  lemma ChunkHeld<T>(l: Load, key: seq<T>, i: nat, n: nat)
    requires l.Valid(key) && n > 0 && i + n <= l.rows && (l.gm + i) % l.blk + n <= l.blk
    requires i >= S2_BASIC_BLOCK_L0 || i + n <= S2_BASIC_BLOCK_L0
    ensures (l.gm + i) / l.blk < |l.table| && l.KeyAt(i) + n * D_BASIC_BLOCK_L0 <= |key|
    ensures Chunk(l.From(), l.At(), l.Strides(), i, n)
  {
    assert l.RowHeld(key, i) && l.RowHeld(key, i + n - 1);
    SamePage(l, i, n - 1);
    OneGo(l, i, n);
  }

  // What one chunk of the load adds.
  lemma ChunkAdds<T>(key: seq<T>, i: nat, n: nat, from: nat -> nat, at: nat -> nat, stride: nat -> nat, s: seq<T>,
                     src: nat, dst: nat, width: nat, ws: seq<Write<T>>, ws': seq<Write<T>>)
    requires AllHeld(key, from, i + n) && Chunk(from, at, stride, i, n)
    requires src == from(i) && dst == at(i) && width == stride(i) && src + n * D_BASIC_BLOCK_L0 <= |key|
    requires ws == Pieces(key, i, from, at, stride) && ws' == Pieces(key, i + n, from, at, stride)
    requires AllFit(|s|, ws) && AllFit(|s|, ws')
    ensures var chunk := NzRows(key, src, n, dst, width);
            AllFit(|s|, chunk) && PutAll(s, ws') == PutAll(PutAll(s, ws), chunk)
  {
    ChunkContinues(key, i, n, from, at, stride);
    var chunk := NzRows(key, src, n, dst, width);
    FitsAfter(|s|, ws, chunk);
    PutAllJoins(s, ws, chunk);
  }

  lemma FitsAfter<T>(size: nat, a: seq<Write<T>>, b: seq<Write<T>>)
    requires AllFit(size, a + b)
    ensures AllFit(size, b)
  {
    forall j | 0 <= j < |b|
      ensures b[j].End() <= size
    {
      assert (a + b)[|a| + j] == b[j];
    }
  }

  // The pieces of the first n rows.
  ghost function Laid<T>(l: Load, key: seq<T>, n: nat): seq<Write<T>>
    requires AllHeld(key, l.From(), n)
  {
    Pieces(key, n, l.From(), l.At(), l.Strides())
  }

  ghost predicate Lays<T>(l: Load, key: seq<T>, n: nat, s: seq<T>) {
    AllHeld(key, l.From(), n) && AllFit(|s|, Laid(l, key, n))
  }

  // How many rows the next chunk takes: up to the end of the page, the half or the load.
  function Mte2Size(l: Load, s2L1Offset: nat): (n: nat)
    requires l.blk > 0 && s2L1Offset < l.rows
    ensures 0 < n && s2L1Offset + n <= l.rows && (l.gm + s2L1Offset) % l.blk + n <= l.blk
    ensures s2L1Offset >= S2_BASIC_BLOCK_L0 || s2L1Offset + n <= S2_BASIC_BLOCK_L0
  {
    var s2BlkOffset := (l.gm + s2L1Offset) % l.blk;
    var s2Mte2Size := if l.rows <= S2_BASIC_BLOCK_L0 || s2L1Offset >= S2_BASIC_BLOCK_L0 then l.rows - s2L1Offset
                      else S2_BASIC_BLOCK_L0 - s2L1Offset;
    if s2BlkOffset + s2Mte2Size >= l.blk then l.blk - s2BlkOffset else s2Mte2Size
  }

  lemma AddChunk<T>(l: Load, key: seq<T>, i: nat, n: nat, s: seq<T>, src: nat)
    requires AllHeld(key, l.From(), i + n) && Chunk(l.From(), l.At(), l.Strides(), i, n) && src == l.From()(i)
    requires src + n * D_BASIC_BLOCK_L0 <= |key| && i + n <= l.rows <= 2 * S2_BASIC_BLOCK_L0
    requires l.slot + KEY_BUFFER_OFFSET <= |s| && Lays(l, key, i, s)
    ensures var chunk := NzRows(key, src, n, l.RowAt(i), l.NzC0Stride(i));
            && AllFit(|s|, chunk) && Lays(l, key, i + n, s)
            && PutAll(s, Laid(l, key, i + n)) == PutAll(PutAll(s, Laid(l, key, i)), chunk)
  {
    AllPiecesFit(l, key, i + n, |s|);
    ChunkAdds(key, i, n, l.From(), l.At(), l.Strides(), s, src, l.RowAt(i), l.NzC0Stride(i),
              Laid(l, key, i), Laid(l, key, i + n));
  }

  lemma NextChunk<T>(l: Load, key: seq<T>, i: nat, n: nat, s: seq<T>)
    requires l.Valid(key) && l.slot + KEY_BUFFER_OFFSET <= |s|
    requires i < l.rows && n == Mte2Size(l, i) && Lays(l, key, i, s)
    ensures (l.gm + i) / l.blk < |l.table| && l.KeyAt(i) + n * D_BASIC_BLOCK_L0 <= |key|
    ensures var chunk := NzRows(key, l.KeyAt(i), n, l.RowAt(i), l.NzC0Stride(i));
            && AllFit(|s|, chunk) && Lays(l, key, i + n, s)
            && PutAll(s, Laid(l, key, i + n)) == PutAll(PutAll(s, Laid(l, key, i)), chunk)
  {
    HeldAll(l, key);
    ChunkHeld(l, key, i, n);
    AddChunk(l, key, i, n, s, l.KeyAt(i));
  }

  // One round of the load loop.
  method LoadChunk<T>(l: Load, key: seq<T>, keyL1: array<T>, i: nat, n: nat, ghost s: seq<T>)
    requires l.Valid(key) && l.slot + KEY_BUFFER_OFFSET <= keyL1.Length == |s|
    requires i < l.rows && n == Mte2Size(l, i) && Lays(l, key, i, s) && keyL1[..] == PutAll(s, Laid(l, key, i))
    modifies keyL1
    ensures Lays(l, key, i + n, s) && keyL1[..] == PutAll(s, Laid(l, key, i + n))
  {
    NextChunk(l, key, i, n, s);
    var keyGmOffset, dst, dstNzC0Stride := Addresses(l, i);
    Nd2Nz(keyL1, key, keyGmOffset, n, dst, dstNzC0Stride);
  }

  // Where a chunk is read and laid down, and how far apart its pieces are.
  method Addresses(l: Load, i: nat) returns (keyGmOffset: nat, dst: nat, dstNzC0Stride: nat)
    requires l.blk > 0 && i < l.rows && (l.gm + i) / l.blk < |l.table|
    ensures keyGmOffset == l.KeyAt(i) && dst == l.RowAt(i) && dstNzC0Stride == l.NzC0Stride(i)
  {
    var s2BlkId: nat, s2BlkOffset: nat := (l.gm + i) / l.blk, (l.gm + i) % l.blk;
    NonNegative(l.table[s2BlkId], l.blk);
    keyGmOffset := l.table[s2BlkId] * l.blk * D_BASIC_BLOCK_L0 + s2BlkOffset * D_BASIC_BLOCK_L0;
    if i >= S2_BASIC_BLOCK_L0 {
      dst := l.slot + S2_BASIC_BLOCK_L0 * D_BASIC_BLOCK_L0 + (i - S2_BASIC_BLOCK_L0) * BLOCK_CUBE;
      dstNzC0Stride := CeilAlign(l.rows - S2_BASIC_BLOCK_L0, BLOCK_CUBE);
    } else {
      dst := l.slot + i * BLOCK_CUBE;
      dstNzC0Stride := if l.rows > S2_BASIC_BLOCK_L0 then S2_BASIC_BLOCK_L0 else CeilAlign(l.rows, BLOCK_CUBE);
    }
  }

  // The load loop: chunks end at page boundaries and at the end of the first half.
  method KeyNd2NzForPA<T>(l: Load, key: seq<T>, keyL1: array<T>)
    requires l.Valid(key) && l.slot + KEY_BUFFER_OFFSET <= keyL1.Length
    modifies keyL1
    ensures Lays(l, key, l.rows, old(keyL1[..]))
    ensures keyL1[..] == PutAll(old(keyL1[..]), Laid(l, key, l.rows))
  {
    ghost var s := keyL1[..];
    var s2L1Offset: nat := 0;
    while s2L1Offset < l.rows
      invariant s2L1Offset <= l.rows
      invariant Lays(l, key, s2L1Offset, s) && keyL1[..] == PutAll(s, Laid(l, key, s2L1Offset))
    {
      var s2Mte2Size := Mte2Size(l, s2L1Offset);
      LoadChunk(l, key, keyL1, s2L1Offset, s2Mte2Size, s);
      s2L1Offset := s2L1Offset + s2Mte2Size;
    }
  }

  // Every row of the load ends up at its place, with the contents of its row of its page. Row i of the load is row
  // (gm + i) % blk of page table[(gm + i) / blk]; a half of n rows takes the rows' columns sixteen at a time, with n
  // rounded up to whole sixteens.
  method LoadKeys<T>(l: Load, key: seq<T>, keyL1: array<T>)
    requires l.Valid(key) && l.slot + KEY_BUFFER_OFFSET <= keyL1.Length
    modifies keyL1
    ensures forall i, d :: 0 <= i < l.rows && 0 <= d < D_BASIC_BLOCK_L0 ==> InPlace(l, key, keyL1[..], i, d)
    ensures forall k :: 0 <= k < keyL1.Length && !(l.slot <= k < l.slot + KEY_BUFFER_OFFSET) ==>
                          keyL1[k] == old(keyL1[k])
  {
    ghost var s := keyL1[..];
    KeyNd2NzForPA(l, key, keyL1);
    forall i, d | 0 <= i < l.rows && 0 <= d < D_BASIC_BLOCK_L0
      ensures InPlace(l, key, keyL1[..], i, d)
    {
      EachInPlace(l, key, s, i, d);
    }
    forall k | 0 <= k < keyL1.Length && !(l.slot <= k < l.slot + KEY_BUFFER_OFFSET)
      ensures keyL1[k] == s[k]
    {
      OtherSlotsStay(l, key, s, k);
      assert keyL1[k] == keyL1[..][k];
    }
  }

  ghost predicate InPlace<T>(l: Load, key: seq<T>, buf: seq<T>, i: nat, d: nat)
    requires l.Valid(key) && i < l.rows && d < D_BASIC_BLOCK_L0
  {
    var page, row := (l.gm + i) / l.blk, (l.gm + i) % l.blk;
    var n := if l.rows <= 128 then l.rows else if i < 128 then 128 else l.rows - 128;
    var at := l.slot + (if i < 128 then 0 else 16384) + d / 16 * ((n + 15) / 16 * 16) * 16 + i % 128 * 16 + d % 16;
    && 0 <= page < |l.table| && 0 <= at < |buf|
    && var from := (l.table[page] * l.blk + row) * 128 + d;
       0 <= from < |key| && buf[at] == key[from]
  }

  lemma PlaceIsAt(l: Load, i: nat, d: nat, n: nat)
    requires i < l.rows <= 256 && d < D_BASIC_BLOCK_L0
    requires n == if l.rows <= 128 then l.rows else if i < 128 then 128 else l.rows - 128
    ensures l.Place(i, d)
         == l.slot + (if i < 128 then 0 else 16384) + d / 16 * ((n + 15) / 16 * 16) * 16 + i % 128 * 16 + d % 16
  {
  }

  lemma PlaceIsIn<T>(l: Load, key: seq<T>, buf: seq<T>, i: nat, d: nat)
    requires l.Valid(key) && i < l.rows && d < D_BASIC_BLOCK_L0 && l.RowHeld(key, i)
    requires l.Place(i, d) < |buf| && buf[l.Place(i, d)] == key[l.KeyAt(i) + d]
    ensures InPlace(l, key, buf, i, d)
  {
    PlaceIsAt(l, i, d, if l.rows <= 128 then l.rows else if i < 128 then 128 else l.rows - 128);
  }

  lemma EachInPlace<T>(l: Load, key: seq<T>, s: seq<T>, i: nat, d: nat)
    requires l.Valid(key) && Lays(l, key, l.rows, s) && i < l.rows && d < D_BASIC_BLOCK_L0
    ensures InPlace(l, key, PutAll(s, Laid(l, key, l.rows)), i, d)
  {
    assert l.RowHeld(key, i);
    PieceIs(l, key, l.rows, i, d / BLOCK_CUBE);
    AllPiecesApart(l, key, l.rows);
    PieceHolds(l, key, i, d);
    Stands(s, Laid(l, key, l.rows), 8 * i + d / BLOCK_CUBE, PieceOf(l, key, i, d / BLOCK_CUBE), d % BLOCK_CUBE,
           l.Place(i, d), key[l.KeyAt(i) + d]);
    PlaceIsIn(l, key, PutAll(s, Laid(l, key, l.rows)), i, d);
  }

  lemma Stands<T>(s: seq<T>, ws: seq<Write<T>>, j: nat, w: Write<T>, c: nat, at: nat, x: T)
    requires AllFit(|s|, ws) && Apart(ws) && j < |ws| && ws[j] == w && c < |w.row|
    requires at == w.at + c && x == w.row[c]
    ensures at < |s| && PutAll(s, ws)[at] == x
  {
    WriteStands(s, ws, j, w, c);
  }

  lemma PieceHolds<T>(l: Load, key: seq<T>, i: nat, d: nat)
    requires l.Valid(key) && i < l.rows && l.RowHeld(key, i) && d < D_BASIC_BLOCK_L0
    ensures PieceOf(l, key, i, d / BLOCK_CUBE).at + d % BLOCK_CUBE == l.Place(i, d)
    ensures PieceOf(l, key, i, d / BLOCK_CUBE).row[d % BLOCK_CUBE] == key[l.KeyAt(i) + d]
  {
    assert Cut(key, l.KeyAt(i), D_BASIC_BLOCK_L0)[d] == key[l.KeyAt(i) + d];
  }

  lemma OtherSlotsStay<T>(l: Load, key: seq<T>, s: seq<T>, k: nat)
    requires l.Valid(key) && Lays(l, key, l.rows, s) && k < |s| && !(l.slot <= k < l.slot + KEY_BUFFER_OFFSET)
    ensures PutAll(s, Laid(l, key, l.rows))[k] == s[k]
  {
    var ws := Laid(l, key, l.rows);
    forall j | 0 <= j < |ws|
      ensures !ws[j].Covers(k)
    {
      PieceByIndex(l, key, l.rows, j);
    }
    RestStays(s, ws, k);
  }

  // What LoadKeyToL0b reads for row i's half - s2L0RealSize rows, aligned to sixteen, of eight pieces each,
  // in order - is the fractal order of the half's rows.
  lemma HalfIsFractal(l: Load, i: nat, d: nat)
    requires i < l.rows <= 2 * S2_BASIC_BLOCK_L0 && d < D_BASIC_BLOCK_L0
    ensures var n := CeilAlign(S2L0RealSize(l, i), BLOCK_CUBE);
            && l.Place(i, d) == l.HalfAt(i) + (TableAt(d / BLOCK_CUBE, n) + l.RowInHalf(i)) * BLOCK_CUBE + d % BLOCK_CUBE
            && l.Place(i, d) < l.HalfAt(i) + n * D_BASIC_BLOCK_L0
  {
    StrideCovers(l, i);
    StrideIsAligned(l, i);
    CellInRows(l.NzC0Stride(i), d / BLOCK_CUBE, l.RowInHalf(i));
  }

  function S2L0RealSize(l: Load, i: nat): nat
    requires i < l.rows
  {
    var s2L1Offset := if i >= S2_BASIC_BLOCK_L0 then S2_BASIC_BLOCK_L0 else 0;
    if s2L1Offset + S2_BASIC_BLOCK_L0 > l.rows then l.rows - s2L1Offset else S2_BASIC_BLOCK_L0
  }

  lemma StrideIsAligned(l: Load, i: nat)
    requires i < l.rows <= 2 * S2_BASIC_BLOCK_L0
    ensures l.NzC0Stride(i) == CeilAlign(S2L0RealSize(l, i), BLOCK_CUBE)
  {
  }

  lemma CellInRows(n: nat, q: nat, r: nat)
    requires q < 8 && r < n
    ensures TableAt(q, n) + r + 1 <= 8 * n
  {
    MulOrder(q, 8, n);
  }
}
