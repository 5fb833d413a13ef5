/** What the ranges of all cores together amount to. */
module IndexerSchedule {
  import opened Arith
  import opened BlockSpace
  import opened BlockOrder
  import opened LightningIndexer
  import opened ProcessMain

  // The blocks of core c, and of the first c cores.
  ghost function CoreBlocks(s: Shape, r: seq<nat>, c: nat): seq<Block>
    requires s.gSize > 0 && Boundaries(s, r) && c < |r| - 1
  {
    s.All()[r[c]..r[c + 1]]
  }

  ghost function Gathered(s: Shape, r: seq<nat>, c: nat): seq<Block>
    requires s.gSize > 0 && Boundaries(s, r) && c < |r|
  {
    if c == 0 then [] else Gathered(s, r, c - 1) + CoreBlocks(s, r, c - 1)
  }

  lemma {:induction false} GatheredIsPrefix(s: Shape, r: seq<nat>, c: nat)
    requires s.gSize > 0 && Boundaries(s, r) && c < |r|
    ensures Gathered(s, r, c) == s.All()[..r[c]]
  {
    if c > 0 {
      GatheredIsPrefix(s, r, c - 1);
      JoinSlices(s.All(), 0, r[c - 1], r[c]);
    }
  }

  // The cores' visits, one core after another, are every valid block once, in order.
  lemma VisitsAreTheBlockSpace(s: Shape, n: nat, r: seq<nat>)
    requires s.Valid() && n > 0 && r == Ranges(Total(s), n) && Boundaries(s, r)
    ensures Gathered(s, r, |r| - 1) == s.All()
    ensures forall x :: x in s.All() <==> s.IsBlock(x)
    ensures forall i, k :: 0 <= i < k < |s.All()| ==>
              var x, y := s.All()[i], s.All()[k];
              x.b < y.b || (x.b == y.b && (x.g < y.g || (x.g == y.g && x.j < y.j)))
    ensures forall c, d :: 0 <= c < |r| - 1 && 0 <= d < |r| - 1 ==>
              |CoreBlocks(s, r, c)| <= |CoreBlocks(s, r, d)| + 1
    ensures forall c :: 0 <= c < |r| - 1 ==> |CoreBlocks(s, r, c)| > 0
  {
    GatheredIsPrefix(s, r, |r| - 1);
    AllIsTheBlockSpace(s);
    forall c | 0 <= c < |r| - 1
      ensures |CoreBlocks(s, r, c)| == Quota(Total(s), n, c)
    {
      RangesTile(Total(s), n, c);
    }
  }

  predicate Clears(s: Shape, info: SplitCoreInfo, z: nat)
    requires z < |s.batches|
  {
    s.ZeroLength(z) && info.bN2Start <= z <= info.bN2End
  }

  ghost predicate AllSplit(s: Shape, r: seq<nat>, infos: seq<SplitCoreInfo>)
    requires s.gSize > 0 && Boundaries(s, r)
  {
    |infos| == |r| - 1 && forall c :: 0 <= c < |infos| ==> Splits(s, r, c, infos[c])
  }

  // When there is any work, a batch whose rows need clearing is cleared by exactly one core.
  lemma ClearedByOneCore(s: Shape, r: seq<nat>, infos: seq<SplitCoreInfo>, z: nat) returns (c: nat)
    requires s.Valid() && Boundaries(s, r) && AllSplit(s, r, infos) && |r| > 1
    requires z < |s.batches| && (s.batches[z].s1 == 0 || s.batches[z].s2 == 0)
    requires s.bsnd || s.batches[z].s1 > 0
    ensures c < |infos| && infos[c].bN2Start <= z <= infos[c].bN2End
    ensures forall d :: 0 <= d < |infos| && infos[d].bN2Start <= z <= infos[d].bN2End ==> d == c
  {
    var p := s.Before(z, 0);
    UptoPrefix(s, z, 0, |s.batches|, 0);
    if p == Total(s) {
      c := |r| - 2;
    } else {
      c := OwnerExists(r, p, |r| - 1);
    }
    RangeReaches(s, r, c, infos[c], z);
    forall d | 0 <= d < |infos| && infos[d].bN2Start <= z <= infos[d].bN2End
      ensures d == c
    {
      ClearerOwns(s, r, d, infos[d], z);
      OneOwner(r, p, Total(s), c, d);
    }
  }

  lemma NotPast(s: Shape, lo: nat, b: nat, z: nat)
    requires s.gSize > 0 && b <= |s.batches| && NoneSkipped(s, lo, b)
    ensures z < b && Clearable(s, z) ==> s.Before(z, 0) < lo
  {
  }

  // A range [lo, hi) containing the place of z (or ending the launch there) spans batch z.
  lemma RangeReaches(s: Shape, r: seq<nat>, c: nat, info: SplitCoreInfo, z: nat)
    requires s.Valid() && Boundaries(s, r) && c < |r| - 1 && Splits(s, r, c, info)
    requires z < |s.batches| && Clearable(s, z)
    requires Owns(r, Total(s), c, s.Before(z, 0))
    ensures Clears(s, info, z)
  {
    var last := s.All()[r[c + 1] - 1];
    UptoHoldsBlocks(s, |s.batches|, 0, r[c + 1] - 1);
    ZeroLengthBatch(s, last.b);
    NotPast(s, r[c], info.bN2Start, z);
    if last.b < z {
      UptoPrefix(s, last.b, last.g + 1, z, 0);
    }
  }

  // A core that clears z owns its place.
  lemma ClearerOwns(s: Shape, r: seq<nat>, d: nat, info: SplitCoreInfo, z: nat)
    requires s.Valid() && Boundaries(s, r) && d < |r| - 1 && Splits(s, r, d, info)
    requires z < |s.batches| && Clears(s, info, z)
    ensures Owns(r, Total(s), d, s.Before(z, 0))
  {
    var last := s.All()[r[d + 1] - 1];
    UptoHoldsBlocks(s, |s.batches|, 0, r[d + 1] - 1);
    ZeroLengthBatch(s, last.b);
    UptoPrefix(s, z, 0, |s.batches|, 0);
    if info.bN2Start < z {
      UptoPrefix(s, info.bN2Start, info.gS1Start, z, 0);
      StartWithinBatch(s, r[d], info, z);
    } else {
      NoBlocksInZeroBatch(s, z, info.gS1Start);
      ZeroLengthBatch(s, z);
    }
    if z < last.b {
      UptoPrefix(s, z, 0, last.b, last.g);
    }
  }

  lemma StartWithinBatch(s: Shape, lo: nat, info: SplitCoreInfo, z: nat)
    requires s.Valid() && IsStart(s, lo, info.bN2Start, info.gS1Start, info.s2Start)
    requires info.bN2Start < z <= |s.batches|
    ensures lo <= s.Before(z, 0)
  {
    if s.IsBlock(Block(info.bN2Start, info.gS1Start, info.s2Start)) {
      UptoPrefix(s, info.bN2Start, info.gS1Start + 1, z, 0);
    } else {
      UptoPrefix(s, info.bN2Start, info.gS1Start, z, 0);
    }
  }

  // Place p lies in core c's range, or p is the end of the launch and c the last core.
  ghost predicate Owns(r: seq<nat>, total: nat, c: nat, p: nat)
    requires c < |r| - 1
  {
    r[c] <= p && (p < r[c + 1] || (p == total && c == |r| - 2))
  }

  lemma OneOwner(r: seq<nat>, p: nat, total: nat, c: nat, d: nat)
    requires c < |r| - 1 && d < |r| - 1
    requires forall i, j :: 0 <= i < j < |r| ==> r[i] < r[j] <= total
    requires Owns(r, total, c, p) && Owns(r, total, d, p)
    ensures c == d
  {
    NotBefore(r, c + 1, d);
    NotBefore(r, d + 1, c);
  }

  lemma NotBefore(r: seq<nat>, i: nat, j: nat)
    requires forall i, j :: 0 <= i < j < |r| ==> r[i] < r[j]
    ensures i <= j < |r| ==> r[i] <= r[j]
  {
  }

  // ----- tiles cut across cores -----

  // Core c holds key blocks Piece.0 .. Piece.1 of tile (b, g).
  function Piece(s: Shape, r: seq<nat>, c: nat, b: nat, g: nat): (int, int)
    requires s.gSize > 0 && c < |r| - 1 && b < |s.batches| && g < s.Tiles(b)
  {
    (Max(0, r[c] - s.Before(b, g)), Min(s.KeyBlocks(b, g), r[c + 1] - s.Before(b, g)))
  }

  predicate Holds(s: Shape, r: seq<nat>, c: nat, b: nat, g: nat)
    requires s.gSize > 0 && c < |r| - 1 && b < |s.batches| && g < s.Tiles(b)
  {
    Piece(s, r, c, b, g).0 < Piece(s, r, c, b, g).1
  }

  // Core c's merge flag is set for tile (b, g).
  ghost predicate LeadsMerge(s: Shape, r: seq<nat>, infos: seq<SplitCoreInfo>, c: nat, b: nat, g: nat)
    requires s.gSize > 0 && Boundaries(s, r) && |infos| == |r| - 1 && c < |infos|
  {
    var last := s.All()[r[c + 1] - 1];
    infos[c].isLD && last.b == b && last.g == g
  }

  // The merge flag of a core means: it holds the first block of a tile, and not the last one.
  lemma LeadsIffHoldsFirst(s: Shape, r: seq<nat>, infos: seq<SplitCoreInfo>, c: nat, b: nat, g: nat)
    requires s.Valid() && Boundaries(s, r) && AllSplit(s, r, infos) && c < |infos|
    requires b < |s.batches| && g < s.Tiles(b)
    ensures LeadsMerge(s, r, infos, c, b, g) <==>
            Holds(s, r, c, b, g) && Piece(s, r, c, b, g).0 == 0 && Piece(s, r, c, b, g).1 < s.KeyBlocks(b, g)
  {
    var last := s.All()[r[c + 1] - 1];
    UptoHoldsBlocks(s, |s.batches|, 0, r[c + 1] - 1);
    if Holds(s, r, c, b, g) && Piece(s, r, c, b, g).1 < s.KeyBlocks(b, g) {
      BlockAt(s, Block(b, g, r[c + 1] - 1 - s.Before(b, g)));
    }
  }

  // A tile cut across cores has exactly one core with the merge flag set for it.
  lemma OneLeaderPerCutTile(s: Shape, r: seq<nat>, infos: seq<SplitCoreInfo>, b: nat, g: nat, cut: nat)
    returns (c: nat)
    requires s.Valid() && Boundaries(s, r) && AllSplit(s, r, infos)
    requires b < |s.batches| && g < s.Tiles(b)
    requires cut < |r| && s.Before(b, g) < r[cut] < s.Before(b, g) + s.KeyBlocks(b, g)
    ensures c < cut && LeadsMerge(s, r, infos, c, b, g) && Piece(s, r, c, b, g).0 == 0
    ensures forall d :: 0 <= d < |infos| && LeadsMerge(s, r, infos, d, b, g) ==> d == c
  {
    var p := s.Before(b, g);
    BlockAt(s, Block(b, g, 0));
    c := OwnerExists(r, p, cut);
    assert c + 1 < cut ==> r[c + 1] < r[cut];
    LeadsIffHoldsFirst(s, r, infos, c, b, g);
    forall d | 0 <= d < |infos| && LeadsMerge(s, r, infos, d, b, g)
      ensures d == c
    {
      LeadsIffHoldsFirst(s, r, infos, d, b, g);
      OneOwner(r, p, Total(s), c, d);
    }
  }
}
