/** The work of the lightning indexer: a ragged three-level space of blocks.

    A block is one batch, one query tile of that batch and one key block of that tile.
    Under the causal mask a tile only has the key blocks some row of it can see. */
module BlockSpace {
  import opened Arith

  const M_BASE: nat := 512
  const S2_BASE: nat := 512

  datatype Batch = Batch(s1: nat, s2: nat)

  datatype Block = Block(b: nat, g: nat, j: nat)

  lemma SameRows(g: nat, base: nat, heads: nat, row: nat)
    requires base * heads == 512
    ensures g * base <= row < g * base + base <==> g * 512 <= row * heads < g * 512 + 512
  {
    assert g * base * heads == g * (base * heads);
    RowsOrder(g * base, row, heads);
    RowsOrder(g * base + base, row, heads);
    assert (g * base + base) * heads == g * base * heads + base * heads;
  }

  lemma RowsOrder(x: nat, y: nat, heads: nat)
    requires heads > 0
    ensures x <= y <==> x * heads <= y * heads
  {
    MulOrder(x, y, heads);
    MulOrder(y, x, heads);
  }

  datatype Shape = Shape(batches: seq<Batch>, gSize: nat, mask: bool, bsnd: bool)
  {
    // What the host guarantees; a masked batch has no more queries than keys.
    ghost predicate Valid() {
      && gSize > 0
      && M_BASE % gSize == 0
      && forall b :: 0 <= b < |batches| ==> BatchOk(batches[b])
    }

    ghost predicate BatchOk(x: Batch) {
      && x.s2 + M_BASE < U32_MOD
      && (mask ==> x.s2 == 0 || x.s1 <= x.s2)
    }

    // Rows of one query tile.
    function S1Base(): (r: nat)
      requires gSize > 0
      ensures r > 0
    {
      DivBounds(M_BASE + gSize - 1, gSize);
      (M_BASE + gSize - 1) / gSize
    }

    function Tiles(b: nat): nat
      requires b < |batches| && gSize > 0
    {
      CeilDiv(batches[b].s1, S1Base())
    }

    // GetS2BaseBlockNumOnMask, in 32-bit unsigned arithmetic.
    function OnMask(g: nat, s1: nat, s2: nat): nat
      requires gSize > 0
    {
      var s1Offset := U32(S1Base() * g);
      var base := U32(s2 - s1);
      var len := U32(s1Offset + base + S1Base());
      U32(Min(len, s2) + S2_BASE - 1) / S2_BASE
    }

    // Key blocks of a tile.
    function KeyBlocks(b: nat, g: nat): nat
      requires b < |batches| && gSize > 0
    {
      if mask then OnMask(g, batches[b].s1, batches[b].s2) else CeilDiv(batches[b].s2, S2_BASE)
    }

    predicate ZeroLength(b: nat)
      requires b < |batches|
    {
      batches[b].s1 == 0 || batches[b].s2 == 0
    }

    predicate IsBlock(x: Block)
      requires gSize > 0
    {
      x.b < |batches| && x.g < Tiles(x.b) && x.j < KeyBlocks(x.b, x.g)
    }

    // How many keys query row `row` of batch `b` may attend to.
    function Visible(b: nat, row: nat): int
      requires b < |batches|
    {
      if mask then batches[b].s2 - batches[b].s1 + row + 1 else batches[b].s2
    }

    predicate RowInTile(b: nat, g: nat, row: nat)
      requires b < |batches| && gSize > 0
    {
      g * S1Base() <= row < batches[b].s1 && row < g * S1Base() + S1Base()
    }

    // The key blocks before tile (b, g), in the order the kernel walks them.
    function Upto(b: nat, g: nat): (r: seq<Block>)
      requires b <= |batches| && gSize > 0
      requires g <= if b < |batches| then Tiles(b) else 0
      decreases b, g
    {
      if g > 0 then Upto(b, g - 1) + TileRow(b, g - 1, KeyBlocks(b, g - 1))
      else if b > 0 then Upto(b - 1, Tiles(b - 1))
      else []
    }

    function TileRow(b: nat, g: nat, n: nat): (r: seq<Block>)
      ensures |r| == n && forall j :: 0 <= j < n ==> r[j] == Block(b, g, j)
    {
      seq(n, j requires 0 <= j < n => Block(b, g, j))
    }

    // Every block of the launch, in order.
    function All(): seq<Block>
      requires gSize > 0
    {
      Upto(|batches|, 0)
    }

    // How many blocks come before tile (b, g).
    function Before(b: nat, g: nat): nat
      requires b <= |batches| && gSize > 0
      requires g <= if b < |batches| then Tiles(b) else 0
    {
      |Upto(b, g)|
    }

    // The last row of a tile: it sees the most keys.
    function LastRow(b: nat, g: nat): (row: nat)
      requires b < |batches| && gSize > 0 && g < Tiles(b)
      ensures RowInTile(b, g, row)
    {
      CeilDivGalois(batches[b].s1, S1Base(), g);
      Min(batches[b].s1, g * S1Base() + S1Base()) - 1
    }

    lemma OnMaskIsCeil(b: nat, g: nat)
      requires Valid() && mask && b < |batches| && g < Tiles(b)
      ensures KeyBlocks(b, g) == CeilDiv(Max(0, Visible(b, LastRow(b, g))), S2_BASE)
    {
      var x := batches[b];
      CeilDivGalois(x.s1, S1Base(), g);
      assert BatchOk(x);
      S1BaseBound();
      assert S1Base() * g == g * S1Base();
      if x.s2 > 0 {
        assert U32(S1Base() * g) == S1Base() * g;
      }
    }

    lemma S1BaseBound()
      requires gSize > 0
      ensures 1 <= S1Base() <= M_BASE
    {
      DivBounds(M_BASE + gSize - 1, gSize);
      MulOrder(M_BASE + 1, S1Base(), gSize);
      assert S1Base() * gSize <= M_BASE + gSize - 1;
      assert (M_BASE + 1) * gSize == M_BASE * gSize + gSize;
      assert M_BASE * gSize >= M_BASE;
    }

    // A key block is worked on exactly when some row of the tile sees its first key.
    lemma KeyBlockIffSeen(b: nat, g: nat, j: nat)
      requires Valid() && b < |batches| && g < Tiles(b)
      ensures j < KeyBlocks(b, g) <==> exists row :: RowInTile(b, g, row) && j * S2_BASE < Visible(b, row)
    {
      var last := LastRow(b, g);
      assert RowInTile(b, g, last);
      CeilDivGalois(batches[b].s1, S1Base(), g);
      if mask {
        OnMaskIsCeil(b, g);
        CeilDivGalois(Max(0, Visible(b, last)), S2_BASE, j);
        if row :| RowInTile(b, g, row) && j * S2_BASE < Visible(b, row) {
          assert row <= last;
        }
      } else {
        CeilDivGalois(batches[b].s2, S2_BASE, j);
      }
    }

    // A tile has the rows whose heads fill its M_BASE places.
    lemma TileOfRow(b: nat, g: nat, row: nat)
      requires Valid() && b < |batches| && row < batches[b].s1
      ensures RowInTile(b, g, row) <==> g * 512 <= row * gSize < g * 512 + 512
      ensures RowInTile(b, g, row) ==> g < Tiles(b)
    {
      S1BaseExact();
      SameRows(g, S1Base(), gSize, row);
      CeilDivGalois(batches[b].s1, S1Base(), g);
    }

    // SplitCore counts tiles by rows, ProcessMain by rows times heads: the same number.
    lemma TileCountsAgree(b: nat)
      requires Valid() && b < |batches|
      ensures CeilDiv(batches[b].s1 * gSize, M_BASE) == Tiles(b)
    {
      var n, t, base := batches[b].s1, Tiles(b), S1Base();
      S1BaseExact();
      CeilDivGalois(n, base, t);
      assert t * M_BASE == t * base * gSize;
      MulOrder(n, t * base, gSize);
      if t > 0 {
        CeilDivGalois(n, base, t - 1);
        assert (t - 1) * M_BASE == (t - 1) * base * gSize;
        MulOrder((t - 1) * base, n, gSize);
      }
      CeilDivUnique(n * gSize, M_BASE, t);
    }

    lemma S1BaseExact()
      requires gSize > 0 && M_BASE % gSize == 0
      ensures S1Base() * gSize == M_BASE
    {
      var q := M_BASE / gSize;
      assert M_BASE == q * gSize;
      DivUnique(M_BASE + gSize - 1, gSize, q);
    }
  }
}
