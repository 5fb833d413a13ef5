/** SplitCore and ProcessMain of the lightning indexer kernel. */
module LightningIndexer {
  import opened Arith
  import opened BlockSpace
  import opened BlockOrder

  datatype SplitCoreInfo = SplitCoreInfo(
    s2Start: nat, s2End: nat,
    bN2Start: nat, bN2End: nat,
    gS1Start: nat, gS1End: nat,
    isLD: bool)

  const NO_SPLIT := SplitCoreInfo(0, 0, 0, 0, 0, 0, false)

  // A zero-length batch at which a core may begin its range, so that it clears the batch's rows.
  predicate Clearable(s: Shape, b: nat)
    requires b < |s.batches|
  {
    s.ZeroLength(b) && (s.bsnd || s.batches[b].s1 > 0)
  }

  // (b, g, j) is where the core whose range begins at block `lo` starts: at that block, or at the
  // first clearable batch after the previous core's last block.
  ghost predicate IsStart(s: Shape, lo: nat, b: nat, g: nat, j: nat)
    requires s.gSize > 0
  {
    && b < |s.batches|
    && g <= s.Tiles(b)
    && s.Before(b, g) + j == lo
    && (s.IsBlock(Block(b, g, j)) || (Clearable(s, b) && g == 0 && j == 0))
    && NoneSkipped(s, lo, b)
  }

  // Every clearable batch before b lies before the previous core's last block.
  ghost predicate NoneSkipped(s: Shape, lo: nat, b: nat)
    requires s.gSize > 0 && b <= |s.batches|
  {
    forall z :: 0 <= z < b && Clearable(s, z) ==> s.Before(z, 0) < lo
  }

  ghost function Total(s: Shape): nat
    requires s.gSize > 0
  {
    |s.All()|
  }

  // Block boundaries of the used cores: core c takes blocks r[c] up to r[c + 1].
  ghost predicate Boundaries(s: Shape, r: seq<nat>)
    requires s.gSize > 0
  {
    && |r| > 0 && r[0] == 0 && r[|r| - 1] == Total(s)
    && forall c, d :: 0 <= c < d < |r| ==> r[c] < r[d] <= Total(s)
  }

  lemma Rising(s: Shape, r: seq<nat>, i: nat, j: nat)
    requires s.gSize > 0 && Boundaries(s, r)
    ensures i <= j < |r| ==> r[i] <= r[j] <= Total(s)
  {
  }

  // What SplitCore owes used core c.
  ghost predicate Splits(s: Shape, r: seq<nat>, c: nat, info: SplitCoreInfo)
    requires s.gSize > 0 && Boundaries(s, r) && c < |r| - 1
  {
    var last := s.All()[r[c + 1] - 1];
    && IsStart(s, r[c], info.bN2Start, info.gS1Start, info.s2Start)
    && EndsAt(s, c == |r| - 2, last, info)
    && (info.isLD <==> StartsCutTile(s, r[c], last))
  }

  // The range ends at its last block, except that the last used core runs on to the last batch.
  ghost predicate EndsAt(s: Shape, lastCore: bool, last: Block, info: SplitCoreInfo) {
    if lastCore && last.b != |s.batches| - 1 then
      info.bN2End == |s.batches| - 1 && info.gS1End == 0 && info.s2End == 0
    else
      info.bN2End == last.b && info.gS1End == last.g && info.s2End == last.j
  }

  // A range from block `lo` to `last` holds the first block of its last tile, and the tile goes on.
  ghost predicate StartsCutTile(s: Shape, lo: nat, last: Block)
    requires s.gSize > 0
  {
    && s.IsBlock(last)
    && lo <= s.Before(last.b, last.g)
    && last.j + 1 < s.KeyBlocks(last.b, last.g)
  }

  class LIPreload {
    const shape: Shape
    // Where the ranges of the used cores begin, and the end of the last.
    ghost const ranges: seq<nat>

    var usedCoreNum: nat
    var splitCoreInfo: SplitCoreInfo

    constructor (shape: Shape, aiCoreIdx: nat, coreNum: nat)
      requires shape.Valid() && coreNum > 0
      ensures this.shape == shape && ranges == Ranges(Total(shape), coreNum) && Boundaries(shape, ranges)
      ensures usedCoreNum == Used(Total(shape), coreNum) == |ranges| - 1
      ensures aiCoreIdx < usedCoreNum ==> Splits(shape, ranges, aiCoreIdx, splitCoreInfo)
    {
      this.shape := shape;
      this.ranges := Ranges(Total(shape), coreNum);
      new;
      RangesAreRanges(Total(shape), coreNum);
      usedCoreNum, splitCoreInfo := SplitCore(aiCoreIdx, coreNum);
    }

    method GetTotalBaseBlockNum() returns (totalBlockNum: nat)
      requires shape.Valid()
      ensures totalBlockNum == Total(shape)
    {
      totalBlockNum := 0;
      for b := 0 to |shape.batches|
        invariant totalBlockNum == shape.Before(b, 0)
      {
        var s1GBaseNum := shape.Tiles(b);
        if !shape.mask {
          TilesOfBatch(shape, b, s1GBaseNum);
          totalBlockNum := totalBlockNum + s1GBaseNum * CeilDiv(shape.batches[b].s2, S2_BASE);
        } else {
          for g := 0 to s1GBaseNum
            invariant totalBlockNum == shape.Before(b, g)
          {
            totalBlockNum := totalBlockNum + shape.OnMask(g, shape.batches[b].s1, shape.batches[b].s2);
          }
        }
        assert shape.Upto(b + 1, 0) == shape.Upto(b, shape.Tiles(b));
      }
    }

    // Walks the whole block space up to the end of core `curCoreIdx`, handing out ranges.
    method SplitCore(curCoreIdx: nat, n: nat) returns (coreNum: nat, info: SplitCoreInfo)
      requires shape.Valid() && n > 0
      requires IsRanges(ranges, Total(shape), Total(shape) / n, Total(shape) % n)
      requires |ranges| - 1 == if Total(shape) / n == 0 then Total(shape) % n else n
      ensures Boundaries(shape, ranges)
      ensures coreNum == |ranges| - 1
      ensures curCoreIdx < coreNum ==> Splits(shape, ranges, curCoreIdx, info)
    {
      var totalBlockNum := GetTotalBaseBlockNum();
      var minBlockPerCore := totalBlockNum / n;
      var deal1MoreBlockCoreNum := totalBlockNum % n;
      coreNum := if minBlockPerCore == 0 then deal1MoreBlockCoreNum else n;
      info := SplitWalk(curCoreIdx, coreNum, minBlockPerCore, deal1MoreBlockCoreNum);
    }

    // The loops of SplitCore over batches and query tiles.
    method SplitWalk(curCoreIdx: nat, coreNum: nat, minBlockPerCore: nat, deal1MoreBlockCoreNum: nat)
      returns (info: SplitCoreInfo)
      requires shape.Valid() && |ranges| == coreNum + 1
      requires IsRanges(ranges, Total(shape), minBlockPerCore, deal1MoreBlockCoreNum)
      ensures Boundaries(shape, ranges)
      ensures curCoreIdx < coreNum ==> Splits(shape, ranges, curCoreIdx, info)
    {
      BoundariesOfRanges(minBlockPerCore, deal1MoreBlockCoreNum);
      var coreIdx: nat := 0;
      var lastGS1RemainBlockCnt: nat := 0;
      info := NO_SPLIT;
      var findLastCoreEnd := true;
      for b := 0 to |shape.batches|
        invariant coreIdx <= curCoreIdx
        invariant Walking(coreIdx, b, 0, 0, lastGS1RemainBlockCnt, findLastCoreEnd, info)
      {
        var done;
        done, coreIdx, lastGS1RemainBlockCnt, findLastCoreEnd, info := SplitBatch(
          curCoreIdx, coreNum, minBlockPerCore, deal1MoreBlockCoreNum, b,
          coreIdx, lastGS1RemainBlockCnt, findLastCoreEnd, info);
        if done {
          return;
        }
      }
      AllHandedOut(coreIdx, lastGS1RemainBlockCnt, findLastCoreEnd, info);
    }

    // One batch of SplitCore's outer loop.
    method SplitBatch(curCoreIdx: nat, coreNum: nat, minBlockPerCore: nat, deal1MoreBlockCoreNum: nat, b: nat,
                      coreIdx0: nat, remain0: nat, atCoreEnd0: bool, info0: SplitCoreInfo)
      returns (done: bool, coreIdx: nat, lastGS1RemainBlockCnt: nat, findLastCoreEnd: bool, info: SplitCoreInfo)
      requires shape.Valid() && Boundaries(shape, ranges) && |ranges| == coreNum + 1
      requires IsRanges(ranges, Total(shape), minBlockPerCore, deal1MoreBlockCoreNum)
      requires b < |shape.batches| && coreIdx0 <= curCoreIdx
      requires Walking(coreIdx0, b, 0, 0, remain0, atCoreEnd0, info0)
      ensures if done then curCoreIdx < coreNum && Splits(shape, ranges, curCoreIdx, info) else
                coreIdx <= curCoreIdx
                && Walking(coreIdx, b + 1, 0, 0, lastGS1RemainBlockCnt, findLastCoreEnd, info)
    {
      done, coreIdx, lastGS1RemainBlockCnt, findLastCoreEnd, info := false, coreIdx0, remain0, atCoreEnd0, info0;
      var s1GBaseNum := shape.Tiles(b);
      var s2BaseNum := CeilDiv(shape.batches[b].s2, S2_BASE);
      ZeroLengthBatch(shape, b);
      if shape.bsnd {
        if findLastCoreEnd && (s1GBaseNum == 0 || s2BaseNum == 0) {
          RangeBegins(coreIdx, b, 0, 0, info);
          info := info.(bN2Start := b, gS1Start := 0, s2Start := 0);
          findLastCoreEnd := false;
        }
      }
      for g := 0 to s1GBaseNum
        invariant !shape.mask ==> s2BaseNum == CeilDiv(shape.batches[b].s2, S2_BASE)
        invariant coreIdx <= curCoreIdx
        invariant Walking(coreIdx, b, g, 0, lastGS1RemainBlockCnt, findLastCoreEnd, info)
        invariant findLastCoreEnd && Clearable(shape, b) ==> g == 0 && !shape.bsnd
      {
        if shape.mask {
          s2BaseNum := shape.OnMask(g, shape.batches[b].s1, shape.batches[b].s2);
        }
        if findLastCoreEnd && s2BaseNum == 0 {
          assert Clearable(shape, b);
          RangeBegins(coreIdx, b, g, 0, info);
          info := info.(bN2Start := b, gS1Start := g, s2Start := 0);
          findLastCoreEnd := false;
        }
        done, coreIdx, lastGS1RemainBlockCnt, findLastCoreEnd, info := SplitTile(
          curCoreIdx, coreNum, minBlockPerCore, deal1MoreBlockCoreNum, b, g, s2BaseNum,
          coreIdx, lastGS1RemainBlockCnt, findLastCoreEnd, info);
        if done {
          return;
        }
      }
    }

    // The innermost loop of SplitCore: hands out the key blocks of one tile.
    method SplitTile(curCoreIdx: nat, coreNum: nat, minBlockPerCore: nat, deal1MoreBlockCoreNum: nat,
                     b: nat, g: nat, s2BaseNum: nat,
                     coreIdx0: nat, remain0: nat, atCoreEnd0: bool, info0: SplitCoreInfo)
      returns (done: bool, coreIdx: nat, lastGS1RemainBlockCnt: nat, findLastCoreEnd: bool, info: SplitCoreInfo)
      requires shape.Valid() && Boundaries(shape, ranges) && |ranges| == coreNum + 1
      requires IsRanges(ranges, Total(shape), minBlockPerCore, deal1MoreBlockCoreNum)
      requires b < |shape.batches| && g < shape.Tiles(b) && s2BaseNum == shape.KeyBlocks(b, g)
      requires coreIdx0 <= curCoreIdx
      requires Walking(coreIdx0, b, g, 0, remain0, atCoreEnd0, info0)
      requires s2BaseNum > 0 <==> !shape.ZeroLength(b)
      requires atCoreEnd0 ==> s2BaseNum > 0
      ensures if done then curCoreIdx < coreNum && Splits(shape, ranges, curCoreIdx, info) else
                coreIdx <= curCoreIdx
                && Walking(coreIdx, b, g + 1, 0, lastGS1RemainBlockCnt, findLastCoreEnd, info)
                && (findLastCoreEnd ==> !Clearable(shape, b))
    {
      done, coreIdx, lastGS1RemainBlockCnt, findLastCoreEnd, info := false, coreIdx0, remain0, atCoreEnd0, info0;
      var coreDealBlockCnt := if coreIdx < deal1MoreBlockCoreNum then minBlockPerCore + 1 else minBlockPerCore;
      var s2Idx := 0;
      while s2Idx < s2BaseNum
        invariant 0 <= s2Idx <= s2BaseNum && !done
        invariant s2Idx > 0 ==> lastGS1RemainBlockCnt == 0
        invariant coreIdx <= curCoreIdx
        invariant coreDealBlockCnt == if coreIdx < deal1MoreBlockCoreNum then minBlockPerCore + 1 else minBlockPerCore
        invariant Walking(coreIdx, b, g, s2Idx, lastGS1RemainBlockCnt, findLastCoreEnd, info)
        invariant findLastCoreEnd ==> !Clearable(shape, b)
      {
        if findLastCoreEnd {
          RangeBegins(coreIdx, b, g, s2Idx, info);
          info := info.(bN2Start := b, gS1Start := g, s2Start := s2Idx);
          findLastCoreEnd := false;
        }
        var s2RemainBaseNum := s2BaseNum - s2Idx;
        StillUsed(coreIdx, b, g, s2Idx, lastGS1RemainBlockCnt);
        if lastGS1RemainBlockCnt + s2RemainBaseNum >= coreDealBlockCnt {
          info := info.(bN2End := b, gS1End := g, s2End := s2Idx + coreDealBlockCnt - lastGS1RemainBlockCnt - 1);
          QuotaFilled(coreIdx, b, g, info.s2End);
          if coreIdx == curCoreIdx {
            info := FinishRange(coreNum, coreIdx, b, g, s2Idx, s2BaseNum, lastGS1RemainBlockCnt, info);
            done := true;
            return;
          }
          coreIdx := coreIdx + 1;
          findLastCoreEnd := true;
          s2Idx := info.s2End + 1;
          lastGS1RemainBlockCnt := 0;
          coreDealBlockCnt := if coreIdx < deal1MoreBlockCoreNum then minBlockPerCore + 1 else minBlockPerCore;
        } else {
          lastGS1RemainBlockCnt := lastGS1RemainBlockCnt + s2RemainBaseNum;
          break;
        }
      }
    }

    // What SplitCore does on reaching the end of the range it was asked for.
    method FinishRange(coreNum: nat, coreIdx: nat, b: nat, g: nat, s2Idx: nat, s2BaseNum: nat,
                       ghost remain: nat, info0: SplitCoreInfo) returns (info: SplitCoreInfo)
      requires shape.gSize > 0 && Boundaries(shape, ranges) && coreIdx < |ranges| - 1 == coreNum
      requires shape.IsBlock(Block(b, g, info0.s2End)) && s2BaseNum == shape.KeyBlocks(b, g)
      requires shape.All()[ranges[coreIdx + 1] - 1] == Block(b, g, info0.s2End)
      requires info0.bN2End == b && info0.gS1End == g && !info0.isLD
      requires shape.Before(b, g) + s2Idx == ranges[coreIdx] + remain && (s2Idx > 0 ==> remain == 0)
      requires IsStart(shape, ranges[coreIdx], info0.bN2Start, info0.gS1Start, info0.s2Start)
      ensures Splits(shape, ranges, coreIdx, info)
    {
      info := info0;
      if s2Idx == 0 && info.s2End + 1 < s2BaseNum {
        info := info.(isLD := true);
      }
      if coreIdx == coreNum - 1 && info.bN2End != |shape.batches| - 1 {
        info := info.(bN2End := |shape.batches| - 1, gS1End := 0, s2End := 0);
      }
    }

    // The state of the walk at key block j of tile (b, g).
    ghost predicate Walking(coreIdx: nat, b: nat, g: nat, j: nat, remain: nat, atCoreEnd: bool, info: SplitCoreInfo)
      requires shape.gSize > 0 && Position(shape, b, g)
    {
      && coreIdx < |ranges|
      && shape.Before(b, g) + j == ranges[coreIdx] + remain
      && (remain == 0 || (coreIdx + 1 < |ranges| && ranges[coreIdx] + remain < ranges[coreIdx + 1]))
      && !info.isLD
      && (if atCoreEnd then remain == 0 && NoneSkipped(shape, ranges[coreIdx], b)
          else IsStart(shape, ranges[coreIdx], info.bN2Start, info.gS1Start, info.s2Start))
    }

    // A core may begin at any block, and at any clearable batch.
    lemma RangeBegins(coreIdx: nat, b: nat, g: nat, j: nat, info: SplitCoreInfo)
      requires shape.gSize > 0 && b < |shape.batches| && g <= shape.Tiles(b)
      requires Walking(coreIdx, b, g, j, 0, true, info)
      requires shape.IsBlock(Block(b, g, j)) || (Clearable(shape, b) && g == 0 && j == 0)
      ensures Walking(coreIdx, b, g, j, 0, false, info.(bN2Start := b, gS1Start := g, s2Start := j))
    {
    }

    // While there are blocks left, the core being served is a used core.
    lemma StillUsed(coreIdx: nat, b: nat, g: nat, j: nat, remain: nat)
      requires shape.gSize > 0 && Boundaries(shape, ranges) && coreIdx < |ranges|
      requires shape.IsBlock(Block(b, g, j)) && shape.Before(b, g) + j == ranges[coreIdx] + remain
      requires remain == 0 || coreIdx + 1 < |ranges|
      ensures coreIdx + 1 < |ranges|
    {
      BlockAt(shape, Block(b, g, j));
    }

    // The block that fills a core's quota is the core's last block, and the next core comes after it.
    lemma QuotaFilled(coreIdx: nat, b: nat, g: nat, j: nat)
      requires shape.gSize > 0 && Boundaries(shape, ranges) && coreIdx + 1 < |ranges|
      requires shape.IsBlock(Block(b, g, j)) && shape.Before(b, g) + j + 1 == ranges[coreIdx + 1]
      ensures shape.All()[ranges[coreIdx + 1] - 1] == Block(b, g, j)
      ensures NoneSkipped(shape, ranges[coreIdx + 1], b)
    {
      BlockAt(shape, Block(b, g, j));
      EveryoneCleared(shape, ranges[coreIdx + 1], b, g, j);
    }

    // Once every block is handed out, every used core has had its turn.
    lemma AllHandedOut(coreIdx: nat, remain: nat, atCoreEnd: bool, info: SplitCoreInfo)
      requires shape.gSize > 0 && Boundaries(shape, ranges)
      requires Walking(coreIdx, |shape.batches|, 0, 0, remain, atCoreEnd, info)
      ensures coreIdx == |ranges| - 1
    {
      Rising(shape, ranges, coreIdx + 1, |ranges| - 1);
    }

    lemma BoundariesOfRanges(min: nat, deal: nat)
      requires shape.gSize > 0 && IsRanges(ranges, Total(shape), min, deal)
      ensures Boundaries(shape, ranges)
    {
      forall c, d | 0 <= c < d < |ranges|
        ensures ranges[c] < ranges[d] <= Total(shape)
      {
        RangesIncrease(ranges, Total(shape), min, deal, c, d);
      }
    }
  }

  // A zero-length batch at or before a core's last block lies before the next core's range.
  lemma EveryoneCleared(s: Shape, lo: nat, b: nat, g: nat, j: nat)
    requires s.gSize > 0 && s.IsBlock(Block(b, g, j)) && s.Before(b, g) + j + 1 == lo
    ensures NoneSkipped(s, lo, b)
  {
    forall z | 0 <= z < b && Clearable(s, z)
      ensures s.Before(z, 0) < lo
    {
      UptoPrefix(s, z, 0, b, g);
    }
  }

  // A batch of zero length has no blocks; any other batch has a block in every tile.
  lemma ZeroLengthBatch(s: Shape, b: nat)
    requires s.Valid() && b < |s.batches|
    ensures s.ZeroLength(b) <==> s.Tiles(b) == 0 || CeilDiv(s.batches[b].s2, S2_BASE) == 0
    ensures s.Tiles(b) > 0 && s.ZeroLength(b) && !s.bsnd ==> Clearable(s, b)
    ensures s.ZeroLength(b) ==> forall g :: 0 <= g < s.Tiles(b) ==> s.KeyBlocks(b, g) == 0
    ensures !s.ZeroLength(b) ==> forall g :: 0 <= g < s.Tiles(b) ==> s.KeyBlocks(b, g) > 0
  {
    CeilDivGalois(s.batches[b].s1, s.S1Base(), 0);
    CeilDivGalois(s.batches[b].s2, S2_BASE, 0);
    forall g | 0 <= g < s.Tiles(b)
      ensures s.KeyBlocks(b, g) > 0 <==> s.batches[b].s2 > 0
    {
      KeyBlocksPositive(s, b, g);
    }
  }

  lemma KeyBlocksPositive(s: Shape, b: nat, g: nat)
    requires s.Valid() && b < |s.batches| && g < s.Tiles(b)
    ensures s.KeyBlocks(b, g) > 0 <==> s.batches[b].s2 > 0
  {
    CeilDivGalois(s.batches[b].s2, S2_BASE, 0);
    if s.mask {
      s.OnMaskIsCeil(b, g);
      CeilDivGalois(Max(0, s.Visible(b, s.LastRow(b, g))), S2_BASE, 0);
      assert s.BatchOk(s.batches[b]);
    }
  }

  lemma TilesOfBatch(s: Shape, b: nat, g: nat)
    requires s.gSize > 0 && !s.mask && b < |s.batches| && g <= s.Tiles(b)
    ensures s.Before(b, g) == s.Before(b, 0) + g * CeilDiv(s.batches[b].s2, S2_BASE)
  {
    if g > 0 {
      TilesOfBatch(s, b, g - 1);
    }
  }
}
