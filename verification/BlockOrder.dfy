/** The order of blocks, and how a launch of n cores cuts it into balanced ranges. */
module BlockOrder {
  import opened Arith
  import opened BlockSpace

  ghost predicate Position(s: Shape, b: nat, g: nat)
    requires s.gSize > 0
  {
    b <= |s.batches| && g <= if b < |s.batches| then s.Tiles(b) else 0
  }

  predicate LexLe(b: nat, g: nat, b': nat, g': nat) {
    b < b' || (b == b' && g <= g')
  }

  lemma {:induction false} UptoPrefix(s: Shape, b: nat, g: nat, b': nat, g': nat)
    requires s.gSize > 0 && Position(s, b, g) && Position(s, b', g') && LexLe(b, g, b', g')
    ensures s.Upto(b, g) <= s.Upto(b', g')
    decreases b', g'
  {
    if b == b' && g == g' {
    } else if g' > 0 {
      UptoPrefix(s, b, g, b', g' - 1);
    } else {
      UptoPrefix(s, b, g, b' - 1, s.Tiles(b' - 1));
    }
  }

  // Every valid block stands in the list at the place its coordinates say.
  lemma BlockAt(s: Shape, x: Block)
    requires s.gSize > 0 && s.IsBlock(x)
    ensures s.Before(x.b, x.g) + x.j < |s.All()|
    ensures s.All()[s.Before(x.b, x.g) + x.j] == x
  {
    UptoPrefix(s, x.b, x.g + 1, |s.batches|, 0);
  }

  // Every entry of the list is a valid block, at the place its coordinates say.
  lemma {:induction false} UptoHoldsBlocks(s: Shape, b: nat, g: nat, i: nat)
    requires s.gSize > 0 && Position(s, b, g) && i < s.Before(b, g)
    ensures var x := s.Upto(b, g)[i];
            s.IsBlock(x) && s.Before(x.b, x.g) + x.j == i && LexLe(x.b, x.g + 1, b, g)
    decreases b, g
  {
    if g > 0 {
      if i < s.Before(b, g - 1) {
        UptoHoldsBlocks(s, b, g - 1, i);
      }
    } else {
      UptoHoldsBlocks(s, b - 1, s.Tiles(b - 1), i);
    }
  }

  // The list holds exactly the valid blocks, each once, in lexicographic order.
  lemma AllIsTheBlockSpace(s: Shape)
    requires s.gSize > 0
    ensures forall x :: x in s.All() <==> s.IsBlock(x)
    ensures forall i, k :: 0 <= i < k < |s.All()| ==>
              var x, y := s.All()[i], s.All()[k];
              x.b < y.b || (x.b == y.b && (x.g < y.g || (x.g == y.g && x.j < y.j)))
  {
    forall x
      ensures x in s.All() <==> s.IsBlock(x)
    {
      if x in s.All() {
        var i :| 0 <= i < |s.All()| && s.All()[i] == x;
        UptoHoldsBlocks(s, |s.batches|, 0, i);
      }
      if s.IsBlock(x) {
        BlockAt(s, x);
      }
    }
    forall i, k | 0 <= i < k < |s.All()|
      ensures Precedes(s.All()[i], s.All()[k])
    {
      BlocksInOrder(s, i, k);
    }
  }

  // Every block of the launch has a row in its tile of 512 row heads that may attend to the first of
  // its 512 keys.
  lemma BlockIsSeen(s: Shape, x: Block) returns (row: nat)
    requires s.Valid() && x in s.All()
    ensures x.b < |s.batches| && row < s.batches[x.b].s1
    ensures x.g * 512 <= row * s.gSize < x.g * 512 + 512
    ensures x.j * 512 < s.batches[x.b].s2 && (s.mask ==> x.j * 512 + s.batches[x.b].s1 <= row + s.batches[x.b].s2)
  {
    AllIsTheBlockSpace(s);
    s.KeyBlockIffSeen(x.b, x.g, x.j);
    row :| s.RowInTile(x.b, x.g, row) && x.j * S2_BASE < s.Visible(x.b, row);
    s.TileOfRow(x.b, x.g, row);
  }

  // ... and every block with such a row belongs to the launch.
  lemma SeenIsBlock(s: Shape, x: Block, row: nat)
    requires s.Valid() && x.b < |s.batches| && row < s.batches[x.b].s1
    requires x.g * 512 <= row * s.gSize < x.g * 512 + 512
    requires x.j * 512 < s.batches[x.b].s2 && (s.mask ==> x.j * 512 + s.batches[x.b].s1 <= row + s.batches[x.b].s2)
    ensures x in s.All()
  {
    s.TileOfRow(x.b, x.g, row);
    s.KeyBlockIffSeen(x.b, x.g, x.j);
    AllIsTheBlockSpace(s);
  }

  predicate Precedes(x: Block, y: Block) {
    x.b < y.b || (x.b == y.b && (x.g < y.g || (x.g == y.g && x.j < y.j)))
  }

  lemma BlocksInOrder(s: Shape, i: nat, k: nat)
    requires s.gSize > 0 && i < k < |s.All()|
    ensures Precedes(s.All()[i], s.All()[k])
  {
    UptoHoldsBlocks(s, |s.batches|, 0, i);
    UptoHoldsBlocks(s, |s.batches|, 0, k);
    var x, y := s.All()[i], s.All()[k];
    if !Precedes(x, y) && !(x.b == y.b && x.g == y.g) {
      UptoPrefix(s, y.b, y.g + 1, x.b, x.g);
    }
  }

  // ----- balanced ranges -----

  // Blocks core c takes when `total` blocks are shared by n cores.
  function Quota(total: nat, n: nat, c: nat): nat
    requires n > 0
  {
    if c < total % n then total / n + 1 else total / n
  }

  // Where core c's range begins.
  function Lo(total: nat, n: nat, c: nat): nat
    requires n > 0
  {
    c * (total / n) + (if c < total % n then c else total % n)
  }

  // How many cores get any work.
  function Used(total: nat, n: nat): nat
    requires n > 0
  {
    if total / n == 0 then total % n else n
  }

  // Consecutive ranges meet, cover everything, and are non-empty exactly on the used cores.
  lemma RangesTile(total: nat, n: nat, c: nat)
    requires n > 0
    ensures Lo(total, n, 0) == 0
    ensures Lo(total, n, c + 1) == Lo(total, n, c) + Quota(total, n, c)
    ensures Lo(total, n, Used(total, n)) == total
    ensures c < Used(total, n) ==> Quota(total, n, c) > 0
    ensures Used(total, n) <= n && (Used(total, n) == 0 <==> total == 0)
  {
    assert (c + 1) * (total / n) == c * (total / n) + total / n;
    DivBounds(total, n);
    assert total == n * (total / n) + total % n;
    if total / n == 0 {
      assert Used(total, n) * (total / n) == 0;
    }
  }

  lemma {:induction false} LoMonotone(total: nat, n: nat, c: nat, d: nat)
    requires n > 0 && c <= d
    ensures Lo(total, n, c) <= Lo(total, n, d)
    ensures c < d <= Used(total, n) ==> Lo(total, n, c) < Lo(total, n, d)
    decreases d
  {
    if c < d {
      RangesTile(total, n, d - 1);
      LoMonotone(total, n, c, d - 1);
    }
  }

  // The range boundaries r of the used cores, when the first `deal` cores take min + 1 blocks and the
  // rest take min.
  ghost predicate IsRanges(r: seq<nat>, total: nat, min: nat, deal: nat) {
    && |r| > 0 && r[0] == 0 && r[|r| - 1] == total
    && forall c :: 0 <= c < |r| - 1 ==> r[c + 1] == r[c] + (if c < deal then min + 1 else min) && r[c] < r[c + 1]
  }

  ghost function Ranges(total: nat, n: nat): (r: seq<nat>)
    requires n > 0
    ensures |r| == Used(total, n) + 1
    ensures forall c :: 0 <= c < |r| ==> r[c] == Lo(total, n, c)
  {
    seq(Used(total, n) + 1, c requires 0 <= c => Lo(total, n, c))
  }

  lemma RangesAreRanges(total: nat, n: nat)
    requires n > 0
    ensures IsRanges(Ranges(total, n), total, total / n, total % n)
  {
    var r := Ranges(total, n);
    RangesTile(total, n, 0);
    forall c | 0 <= c < |r| - 1
      ensures r[c + 1] == r[c] + Quota(total, n, c) && r[c] < r[c + 1]
    {
      RangesTile(total, n, c);
    }
  }

  lemma {:induction false} RangesIncrease(r: seq<nat>, total: nat, min: nat, deal: nat, c: nat, d: nat)
    requires IsRanges(r, total, min, deal) && c < d < |r|
    ensures r[c] < r[d] <= total
    decreases |r| - c, d
  {
    if d + 1 < |r| {
      RangesIncrease(r, total, min, deal, d, |r| - 1);
    }
    if c + 1 < d {
      RangesIncrease(r, total, min, deal, c, d - 1);
    }
  }

  // Every block index falls in the range of a used core.
  lemma {:induction false} OwnerExists(r: seq<nat>, i: nat, c: nat) returns (owner: nat)
    requires c < |r| && r[0] <= i < r[c]
    ensures owner < c && r[owner] <= i < r[owner + 1]
    decreases c
  {
    if r[c - 1] <= i {
      owner := c - 1;
    } else {
      owner := OwnerExists(r, i, c - 1);
    }
  }
}
