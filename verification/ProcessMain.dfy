/** ProcessMain: how one core walks the range that SplitCore gave it. */
module ProcessMain {
  import opened Arith
  import opened BlockSpace
  import opened BlockOrder
  import opened LightningIndexer

  // The zero-length batches from b on and before e, in order.
  ghost function ZeroBatches(s: Shape, b: nat, e: nat): seq<nat> {
    if b >= e then []
    else if e <= |s.batches| && s.ZeroLength(e - 1) then ZeroBatches(s, b, e - 1) + [e - 1]
    else ZeroBatches(s, b, e - 1)
  }

  lemma {:induction false} ZeroBatchesAreAll(s: Shape, b: nat, e: nat)
    ensures var r := ZeroBatches(s, b, e);
            && (forall z :: z in r <==>
                  b <= z < e && z < |s.batches| && (s.batches[z].s1 == 0 || s.batches[z].s2 == 0))
            && forall i, k :: 0 <= i < k < |r| ==> r[i] < r[k]
  {
    if b < e {
      ZeroBatchesAreAll(s, b, e - 1);
      var r := ZeroBatches(s, b, e - 1);
      assert forall i :: 0 <= i < |r| ==> r[i] in r;
    }
  }

  class CoreWalk {
    const shape: Shape
    var splitCoreInfo: SplitCoreInfo

    constructor (shape: Shape, info: SplitCoreInfo)
      ensures this.shape == shape && splitCoreInfo == info
    {
      this.shape, splitCoreInfo := shape, info;
    }

    // CalcGS1LoopParams: the last query tile to walk in a batch that has work.
    method CalcGS1LoopParams(b: nat) returns (gS1LoopEnd: nat)
      requires shape.Valid() && b < |shape.batches| && !shape.ZeroLength(b)
      ensures gS1LoopEnd == if b == splitCoreInfo.bN2End then splitCoreInfo.gS1End else shape.Tiles(b) - 1
    {
      shape.TileCountsAgree(b);
      ZeroLengthBatch(shape, b);
      var gS1SplitNum := CeilDiv(shape.batches[b].s1 * shape.gSize, M_BASE);
      gS1LoopEnd := if b == splitCoreInfo.bN2End then splitCoreInfo.gS1End else gS1SplitNum - 1;
    }

    // The range ends at hi: with the recorded block in the last batch of the core, behind the tile in any other.
    ghost predicate ReachesTo(b: nat, g: nat, hi: nat)
      reads this
      requires shape.gSize > 0 && b < |shape.batches| && g < shape.Tiles(b)
    {
      && hi <= Total(shape)
      && if b == splitCoreInfo.bN2End then
           && shape.IsBlock(Block(b, splitCoreInfo.gS1End, splitCoreInfo.s2End)) && g <= splitCoreInfo.gS1End
           && shape.Before(b, splitCoreInfo.gS1End) + splitCoreInfo.s2End + 1 == hi
         else shape.Before(b, g) + shape.KeyBlocks(b, g) <= hi
    }

    // CalcS2LoopParams: the last key block to walk in a tile; of the tile's blocks exactly those up to it lie in
    // the range.
    method CalcS2LoopParams(b: nat, g: nat, ghost hi: nat) returns (s2LoopEnd: nat)
      requires shape.Valid() && b < |shape.batches| && g < shape.Tiles(b) && !shape.ZeroLength(b) && ReachesTo(b, g, hi)
      ensures shape.IsBlock(Block(b, g, s2LoopEnd))
      ensures forall j: nat :: shape.IsBlock(Block(b, g, j)) ==> (shape.Before(b, g) + j < hi <==> j <= s2LoopEnd)
    {
      ZeroLengthBatch(shape, b);
      TileInRange(shape, b, g, hi, splitCoreInfo);
      var isEnd := b == splitCoreInfo.bN2End && g == splitCoreInfo.gS1End;
      var s2BlockNum := if shape.mask then shape.OnMask(g, shape.batches[b].s1, shape.batches[b].s2)
                        else CeilDiv(shape.batches[b].s2, S2_BASE);
      s2LoopEnd := if isEnd then splitCoreInfo.s2End else s2BlockNum - 1;
    }

    // The walk stands at the first block it has still to visit in batch b.
    ghost predicate Standing(b: nat, pos: nat, hi: nat)
      reads this
      requires shape.gSize > 0 && b < |shape.batches|
    {
      && splitCoreInfo.gS1Start <= shape.Tiles(b)
      && pos == shape.Before(b, splitCoreInfo.gS1Start) + splitCoreInfo.s2Start
      && if shape.ZeroLength(b) then splitCoreInfo.gS1Start == 0 && splitCoreInfo.s2Start == 0
         else pos < hi && shape.IsBlock(Block(b, splitCoreInfo.gS1Start, splitCoreInfo.s2Start))
    }

    // Returns the blocks handed to ProcessBaseBlock, and the batches handed to DealActSeqLenIsZero: those of the
    // range that have no queries or no keys, each once.
    method ProcessMain(ghost r: seq<nat>, ghost c: nat) returns (visited: seq<Block>, cleared: seq<nat>)
      requires shape.Valid() && Boundaries(shape, r) && c < |r| - 1
      requires Splits(shape, r, c, splitCoreInfo)
      modifies this
      ensures visited == shape.All()[r[c]..r[c + 1]]
      ensures forall z :: z in cleared <==>
                && old(splitCoreInfo.bN2Start) <= z <= old(splitCoreInfo.bN2End) && z < |shape.batches|
                && (shape.batches[z].s1 == 0 || shape.batches[z].s2 == 0)
      ensures forall i, k :: 0 <= i < k < |cleared| ==> cleared[i] < cleared[k]
    {
      StartNotPastEnd(shape, r, c, splitCoreInfo);
      StartIsStanding(shape, r, c, splitCoreInfo);
      EveryStep(shape, r, c, splitCoreInfo);
      ZeroBatchesAreAll(shape, splitCoreInfo.bN2Start, splitCoreInfo.bN2End + 1);
      visited, cleared := WalkBatches(r[c], r[c + 1]);
    }

    // The loop of ProcessMain over the batches of the range.
    method WalkBatches(ghost lo: nat, ghost hi: nat) returns (visited: seq<Block>, cleared: seq<nat>)
      requires shape.Valid() && lo <= hi <= Total(shape)
      requires splitCoreInfo.bN2Start <= splitCoreInfo.bN2End < |shape.batches|
      requires Standing(splitCoreInfo.bN2Start, lo, hi)
      requires StepsOk(shape, hi, Block(splitCoreInfo.bN2End, splitCoreInfo.gS1End, splitCoreInfo.s2End))
      modifies this
      ensures visited == shape.All()[lo..hi]
      ensures cleared == ZeroBatches(shape, old(splitCoreInfo.bN2Start), old(splitCoreInfo.bN2End) + 1)
    {
      visited, cleared := [], [];
      ghost var all, b0, pos: nat := shape.All(), splitCoreInfo.bN2Start, lo;
      ghost var last := Block(splitCoreInfo.bN2End, splitCoreInfo.gS1End, splitCoreInfo.s2End);
      for b := splitCoreInfo.bN2Start to splitCoreInfo.bN2End + 1
        invariant Block(splitCoreInfo.bN2End, splitCoreInfo.gS1End, splitCoreInfo.s2End) == last
        invariant lo <= pos <= hi && visited == all[lo..pos]
        invariant cleared == ZeroBatches(shape, b0, b)
        invariant if b <= last.b then Standing(b, pos, hi) else pos == hi
      {
        assert StepOk(shape, b, hi, last);
        if shape.ZeroLength(b) {
          cleared := cleared + [b];
          NoBlocksInZeroBatch(shape, b, shape.Tiles(b));
          continue;
        }
        visited, pos := WalkBatch(b, lo, pos, hi, last, visited);
      }
    }

    // A batch that has work: its blocks, up to the end of the range.
    method WalkBatch(b: nat, ghost lo: nat, ghost pos: nat, ghost hi: nat, ghost last: Block, seen: seq<Block>)
      returns (visited: seq<Block>, ghost pos': nat)
      requires shape.Valid() && b <= last.b < |shape.batches| && !shape.ZeroLength(b) && hi <= Total(shape)
      requires Block(splitCoreInfo.bN2End, splitCoreInfo.gS1End, splitCoreInfo.s2End) == last
      requires lo <= pos <= hi && seen == shape.All()[lo..pos] && Standing(b, pos, hi) && StepOk(shape, b, hi, last)
      modifies this
      ensures Block(splitCoreInfo.bN2End, splitCoreInfo.gS1End, splitCoreInfo.s2End) == last
      ensures lo <= pos' <= hi && visited == shape.All()[lo..pos']
      ensures if b < last.b then Standing(b + 1, pos', hi) else pos' == hi
    {
      var part;
      part, pos' := ProcessBatch(hi, b, pos);
      JoinSlices(shape.All(), lo, pos, pos');
      visited := seen + part;
      splitCoreInfo := splitCoreInfo.(gS1Start := 0);
    }

    // The loop over the query tiles of one batch that has work.
    method ProcessBatch(ghost hi: nat, b: nat, ghost pos0: nat) returns (visited: seq<Block>, ghost pos: nat)
      requires shape.Valid() && b < |shape.batches| && !shape.ZeroLength(b)
      requires pos0 < hi <= Total(shape)
      requires if b == splitCoreInfo.bN2End then
                 shape.All()[hi - 1] == Block(b, splitCoreInfo.gS1End, splitCoreInfo.s2End)
               else shape.Before(b + 1, 0) <= hi
      requires Standing(b, pos0, hi)
      modifies this
      ensures splitCoreInfo == old(splitCoreInfo).(s2Start := 0)
      ensures pos0 <= pos <= Total(shape) && visited == shape.All()[pos0..pos]
      ensures pos == if b == splitCoreInfo.bN2End then hi else shape.Before(b + 1, 0)
    {
      visited, pos := [], pos0;
      ghost var all := shape.All();
      var gS1LoopEnd := CalcGS1LoopParams(b);
      EndOfTiles(shape, b, hi, splitCoreInfo);
      for g := splitCoreInfo.gS1Start to gS1LoopEnd + 1
        invariant splitCoreInfo == old(splitCoreInfo).(s2Start := splitCoreInfo.s2Start)
        invariant splitCoreInfo.s2Start == if g == splitCoreInfo.gS1Start then old(splitCoreInfo.s2Start) else 0
        invariant pos0 <= pos <= |all| && visited == all[pos0..pos]
        invariant if g <= gS1LoopEnd then pos == shape.Before(b, g) + splitCoreInfo.s2Start
                  else pos == if b == splitCoreInfo.bN2End then hi else shape.Before(b, g)
      {
        TileEndsInside(shape, b, g);
        visited, pos := AddTile(b, g, pos0, pos, hi, visited);
        splitCoreInfo := splitCoreInfo.(s2Start := 0);
      }
    }

    // Appends the blocks of one tile, up to its last or the end of the range, to those visited so far.
    method AddTile(b: nat, g: nat, ghost pos0: nat, ghost pos: nat, ghost hi: nat, seen: seq<Block>)
      returns (visited: seq<Block>, ghost pos': nat)
      requires shape.Valid() && b < |shape.batches| && g < shape.Tiles(b) && !shape.ZeroLength(b)
      requires pos0 <= pos <= Total(shape) && seen == shape.All()[pos0..pos] && ReachesTo(b, g, hi)
      requires pos == shape.Before(b, g) + splitCoreInfo.s2Start
      requires splitCoreInfo.s2Start == 0 || splitCoreInfo.s2Start < shape.KeyBlocks(b, g)
      requires b == splitCoreInfo.bN2End && g == splitCoreInfo.gS1End ==> splitCoreInfo.s2Start <= splitCoreInfo.s2End
      ensures pos' == if b == splitCoreInfo.bN2End && g == splitCoreInfo.gS1End then hi
                      else shape.Before(b, g) + shape.KeyBlocks(b, g)
      ensures pos < pos' <= hi <= Total(shape) && visited == shape.All()[pos0..pos']
    {
      ZeroLengthBatch(shape, b);
      var s2LoopEnd := CalcS2LoopParams(b, g, hi);
      TileInRange(shape, b, g, hi, splitCoreInfo);
      assert shape.IsBlock(Block(b, g, splitCoreInfo.s2Start));
      var part := ProcessTile(b, g, splitCoreInfo.s2Start, s2LoopEnd);
      pos' := shape.Before(b, g) + s2LoopEnd + 1;
      assert shape.IsBlock(Block(b, g, shape.KeyBlocks(b, g) - 1));
      JoinSlices(shape.All(), pos0, pos, pos');
      visited := seen + part;
    }

    // The loop over the key blocks of one tile.
    method ProcessTile(b: nat, g: nat, s2Start: nat, s2LoopEnd: nat) returns (visited: seq<Block>)
      requires shape.gSize > 0 && b < |shape.batches| && g < shape.Tiles(b)
      requires s2Start <= s2LoopEnd < shape.KeyBlocks(b, g)
      ensures shape.Before(b, g) + s2LoopEnd < Total(shape)
      ensures visited == shape.All()[shape.Before(b, g) + s2Start..shape.Before(b, g) + s2LoopEnd + 1]
    {
      visited := [];
      ghost var all, at := shape.All(), shape.Before(b, g);
      BlockAt(shape, Block(b, g, s2LoopEnd));
      for j := s2Start to s2LoopEnd + 1
        invariant visited == all[at + s2Start..at + j]
      {
        BlockAt(shape, Block(b, g, j));
        visited := visited + [Block(b, g, j)];
      }
    }
  }

  // A tile before the last one of the range lies wholly in it.
  lemma TileInRange(s: Shape, b: nat, g: nat, hi: nat, info: SplitCoreInfo)
    requires s.gSize > 0 && b < |s.batches| && g < s.Tiles(b)
    requires b == info.bN2End ==>
               s.IsBlock(Block(b, info.gS1End, info.s2End)) && g <= info.gS1End
               && s.Before(b, info.gS1End) + info.s2End + 1 == hi
    ensures b == info.bN2End && g < info.gS1End ==> s.Before(b, g) + s.KeyBlocks(b, g) <= hi
  {
    if b == info.bN2End && g < info.gS1End {
      UptoPrefix(s, b, g + 1, b, info.gS1End);
    }
  }

  lemma TileEndsInside(s: Shape, b: nat, g: nat)
    requires s.gSize > 0 && b < |s.batches| && g < s.Tiles(b)
    ensures s.Before(b, g) + s.KeyBlocks(b, g) == s.Before(b, g + 1) <= s.Before(b + 1, 0)
  {
    UptoPrefix(s, b, g + 1, b + 1, 0);
  }

  lemma JoinSlices<T>(s: seq<T>, i: nat, j: nat, k: nat)
    requires i <= j <= k <= |s|
    ensures s[i..j] + s[j..k] == s[i..k]
  {
  }

  // What walking on from batch b needs: the range ends with it, or the next batch can be started.
  ghost predicate StepOk(s: Shape, b: nat, hi: nat, last: Block)
    requires s.gSize > 0 && b < |s.batches| && hi <= Total(s)
  {
    if b == last.b then
      if s.ZeroLength(b) then s.Before(b, 0) == hi else hi > 0 && s.All()[hi - 1] == last
    else
      && b + 1 < |s.batches|
      && s.Before(b + 1, 0) <= hi
      && (!s.ZeroLength(b + 1) ==> s.Before(b + 1, 0) < hi && s.IsBlock(Block(b + 1, 0, 0)))
  }

  ghost predicate StepsOk(s: Shape, hi: nat, last: Block)
    requires s.gSize > 0 && hi <= Total(s) && last.b < |s.batches|
  {
    forall b {:trigger StepOk(s, b, hi, last)} :: 0 <= b <= last.b ==> StepOk(s, b, hi, last)
  }

  lemma EveryStep(s: Shape, r: seq<nat>, c: nat, info: SplitCoreInfo)
    requires s.Valid() && Boundaries(s, r) && c < |r| - 1
    requires info.bN2End < |s.batches| && EndsAt(s, c == |r| - 2, s.All()[r[c + 1] - 1], info)
    ensures StepsOk(s, r[c + 1], Block(info.bN2End, info.gS1End, info.s2End))
  {
    var last := Block(info.bN2End, info.gS1End, info.s2End);
    forall b {:trigger StepOk(s, b, r[c + 1], last)} | 0 <= b <= last.b
      ensures StepOk(s, b, r[c + 1], last)
    {
      if b == info.bN2End {
        RangeEnds(s, r, c, b, info);
      } else {
        FreshBatch(s, r, c, b + 1, info);
      }
    }
  }

  // In the batch that ends the range, the start does not lie past the end.
  lemma EndOfTiles(s: Shape, b: nat, hi: nat, info: SplitCoreInfo)
    requires s.gSize > 0 && b < |s.batches| && 0 < hi <= Total(s)
    requires s.IsBlock(Block(b, info.gS1Start, info.s2Start))
    requires s.Before(b, info.gS1Start) + info.s2Start < hi
    ensures b == info.bN2End && s.All()[hi - 1] == Block(b, info.gS1End, info.s2End) ==>
              && s.IsBlock(Block(b, info.gS1End, info.s2End))
              && s.Before(b, info.gS1End) + info.s2End + 1 == hi
              && (info.gS1Start < info.gS1End || (info.gS1Start == info.gS1End && info.s2Start <= info.s2End))
  {
    UptoHoldsBlocks(s, |s.batches|, 0, hi - 1);
    if b == info.bN2End && s.All()[hi - 1] == Block(b, info.gS1End, info.s2End) {
      BlockOrderIsPosition(s, Block(b, info.gS1Start, info.s2Start), s.All()[hi - 1]);
    }
  }

  // Blocks of one batch compare like their places in the list.
  lemma BlockOrderIsPosition(s: Shape, x: Block, y: Block)
    requires s.gSize > 0 && s.IsBlock(x) && s.IsBlock(y) && x.b == y.b
    requires s.Before(x.b, x.g) + x.j <= s.Before(y.b, y.g) + y.j
    ensures x.g < y.g || (x.g == y.g && x.j <= y.j)
  {
    if x.g > y.g {
      UptoPrefix(s, y.b, y.g + 1, x.b, x.g);
    }
  }

  lemma StartNotPastEnd(s: Shape, r: seq<nat>, c: nat, info: SplitCoreInfo)
    requires s.Valid() && Boundaries(s, r) && c < |r| - 1 && Splits(s, r, c, info)
    ensures info.bN2Start <= info.bN2End < |s.batches|
  {
    var last := s.All()[r[c + 1] - 1];
    UptoHoldsBlocks(s, |s.batches|, 0, r[c + 1] - 1);
    if info.bN2Start > last.b {
      UptoPrefix(s, last.b, last.g + 1, info.bN2Start, info.gS1Start);
    }
  }

  lemma StartIsStanding(s: Shape, r: seq<nat>, c: nat, info: SplitCoreInfo)
    requires s.Valid() && Boundaries(s, r) && c < |r| - 1 && Splits(s, r, c, info)
    ensures s.ZeroLength(info.bN2Start) ==> info.gS1Start == 0 && info.s2Start == 0
    ensures !s.ZeroLength(info.bN2Start) ==> s.IsBlock(Block(info.bN2Start, info.gS1Start, info.s2Start))
  {
    ZeroLengthBatch(s, info.bN2Start);
  }

  lemma {:induction false} NoBlocksInZeroBatch(s: Shape, b: nat, g: nat)
    requires s.Valid() && b < |s.batches| && s.ZeroLength(b) && g <= s.Tiles(b)
    ensures s.Before(b, g) == s.Before(b, 0)
  {
    if g > 0 {
      NoBlocksInZeroBatch(s, b, g - 1);
      ZeroLengthBatch(s, b);
    }
  }

  // The walk may start batch b afresh, if its range still reaches that far.
  lemma FreshBatch(s: Shape, r: seq<nat>, c: nat, b: nat, info: SplitCoreInfo)
    requires s.Valid() && Boundaries(s, r) && c < |r| - 1
    requires b <= info.bN2End < |s.batches| && EndsAt(s, c == |r| - 2, s.All()[r[c + 1] - 1], info)
    ensures s.Before(b, 0) <= r[c + 1]
    ensures !s.ZeroLength(b) ==> s.Before(b, 0) < r[c + 1] && s.IsBlock(Block(b, 0, 0))
  {
    var last := s.All()[r[c + 1] - 1];
    UptoHoldsBlocks(s, |s.batches|, 0, r[c + 1] - 1);
    ZeroLengthBatch(s, b);
    if b <= last.b {
      UptoPrefix(s, b, 0, last.b, last.g);
    } else {
      UptoPrefix(s, b, 0, |s.batches|, 0);
      if !s.ZeroLength(b) {
        UptoPrefix(s, b, 1, |s.batches|, 0);
      }
    }
  }

  // The range ends with batch b: if the batch has no work, every block is behind it.
  lemma RangeEnds(s: Shape, r: seq<nat>, c: nat, b: nat, info: SplitCoreInfo)
    requires s.Valid() && Boundaries(s, r) && c < |r| - 1
    requires b == info.bN2End < |s.batches| && EndsAt(s, c == |r| - 2, s.All()[r[c + 1] - 1], info)
    ensures if s.ZeroLength(b) then s.Before(b, 0) == r[c + 1]
            else s.All()[r[c + 1] - 1] == Block(b, info.gS1End, info.s2End)
  {
    var last := s.All()[r[c + 1] - 1];
    UptoHoldsBlocks(s, |s.batches|, 0, r[c + 1] - 1);
    ZeroLengthBatch(s, b);
    ZeroLengthBatch(s, last.b);
    if last.b != b {
      UptoPrefix(s, last.b, last.g + 1, b, 0);
      UptoPrefix(s, b, 0, |s.batches|, 0);
      if !s.ZeroLength(b) {
        UptoPrefix(s, b, 1, |s.batches|, 0);
      }
    }
  }
}
