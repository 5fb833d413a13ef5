/** The vector core of the lightning indexer: the running top-K of one query row. */
module LIVector {
  import opened Arith
  import opened BlockSpace
  import opened TopK
  import opened MrgSort
  import SortAll

  const BASE_TOPK: nat := 2048

  // The score of each key for the row at hand.
  type Scores = nat -> int

  // Key block j as it is handed to the sorter: keys the row may not see become padding.
  function BlockEntries(score: Scores, len: int, j: nat): (r: seq<Entry>)
    ensures |r| == S2_BASE
  {
    seq(S2_BASE, x requires 0 <= x =>
      if j * S2_BASE + x < len then Key(score(j * S2_BASE + x), j * S2_BASE + x) else Pad)
  }

  // Key blocks p .. q - 1.
  function Seen(score: Scores, len: int, p: nat, q: nat): (r: seq<Entry>)
    ensures |r| == if p < q then (q - p) * S2_BASE else 0
  {
    if q <= p then [] else Seen(score, len, p, q - 1) + BlockEntries(score, len, q - 1)
  }

  // How many keys the rows of one vector core may attend to: the first core of a pair has the first half
  // of a tile's rows, the second one the others; under the mask each row sees one key more than the row
  // before it, and the last row of the batch sees them all.
  method RowLengths(gS1Idx: nat, s1BaseSize: nat, actS1Size: nat, actS2Size: int, attenMaskFlag: bool, blockId: nat)
    returns (cuS1BeginIdxPerAiv: nat, lengths: seq<int>)
    requires s1BaseSize > 0 && gS1Idx * s1BaseSize < actS1Size
    ensures var first, rows := gS1Idx * s1BaseSize, Min(s1BaseSize, actS1Size - gS1Idx * s1BaseSize);
            && cuS1BeginIdxPerAiv == (if blockId % 2 == 0 then first else first + (rows + 1) / 2)
            && cuS1BeginIdxPerAiv + |lengths| == (if blockId % 2 == 0 then first + (rows + 1) / 2 else first + rows)
    ensures forall n :: 0 <= n < |lengths| ==>
              lengths[n] == if attenMaskFlag then actS2Size - actS1Size + cuS1BeginIdxPerAiv + n + 1 else actS2Size
  {
    var cuBaseS1Idx: nat := gS1Idx * s1BaseSize;
    LastTileRows(cuBaseS1Idx, gS1Idx, s1BaseSize, actS1Size);
    var cuS1ProcNum: nat := if cuBaseS1Idx + s1BaseSize > actS1Size then actS1Size % s1BaseSize else s1BaseSize;
    var cuS1ProcNumPerAiv := if blockId % 2 == 0 then CeilDiv(cuS1ProcNum, 2) else cuS1ProcNum / 2;
    cuS1BeginIdxPerAiv := cuBaseS1Idx + (if blockId % 2 == 0 then 0 else CeilDiv(cuS1ProcNum, 2));
    lengths := Lengths(cuS1BeginIdxPerAiv, cuS1ProcNumPerAiv, actS1Size, actS2Size, attenMaskFlag);
  }

  method Lengths(cuS1BeginIdxPerAiv: nat, cuS1ProcNumPerAiv: nat, actS1Size: nat, actS2Size: int, attenMaskFlag: bool)
    returns (lengths: seq<int>)
    ensures |lengths| == cuS1ProcNumPerAiv
    ensures forall n :: 0 <= n < |lengths| ==>
              lengths[n] == if attenMaskFlag then actS2Size - actS1Size + cuS1BeginIdxPerAiv + n + 1 else actS2Size
  {
    var cuRealAcSeq := actS2Size;
    if attenMaskFlag {
      cuRealAcSeq := actS2Size - (actS1Size - cuS1BeginIdxPerAiv);
    }
    lengths := [];
    for innerS1Idx := 0 to cuS1ProcNumPerAiv
      invariant |lengths| == innerS1Idx
      invariant cuRealAcSeq ==
                if attenMaskFlag then actS2Size - actS1Size + cuS1BeginIdxPerAiv + innerS1Idx else actS2Size
      invariant forall n :: 0 <= n < |lengths| ==>
                  lengths[n] == if attenMaskFlag then actS2Size - actS1Size + cuS1BeginIdxPerAiv + n + 1 else actS2Size
    {
      if attenMaskFlag {
        cuRealAcSeq := cuRealAcSeq + 1;
      }
      lengths := lengths + [cuRealAcSeq];
    }
  }

  lemma LastTileRows(first: nat, g: nat, base: nat, n: nat)
    requires base > 0 && first == g * base && first < n
    ensures first + base > n ==> n % base == n - first
  {
    if first + base > n {
      DivUnique(n, base, g);
    }
  }

  datatype RunInfo = RunInfo(loop: nat, s2Idx: nat, actS1Size: nat, isLastS2InnerLoop: bool, isAllLoopEnd: bool)

  // What a block makes the row write: the final indices, or a partial list into the core's head or
  // tail slot, with the flag that the row ends there.
  datatype Emit = Nothing | Out(list: seq<Entry>) | Head(list: seq<Entry>, isS2End: bool) |
                  Tail(list: seq<Entry>, isS2End: bool)

  function EmitOf(list: seq<Entry>, p: nat, isS2End: bool, isAllLoopEnd: bool): Emit {
    if p == 0 && isS2End then Out(list)
    else if isS2End || isAllLoopEnd then (if p == 0 then Tail(list, isS2End) else Head(list, isS2End))
    else Nothing
  }

  class RowLane {
    var globalTopkUb: seq<Entry>
    var sortedBasicBlock: seq<seq<Entry>>
    var blockS2StartIdx: nat
    // The entries merged into the running list, and the blocks waiting in the cache.
    ghost var merged: seq<Entry>
    ghost var waiting: seq<seq<Entry>>

    ghost predicate Valid()
      reads this
    {
      && |globalTopkUb| == BASE_TOPK && globalTopkUb == Top(BASE_TOPK, merged)
      && |sortedBasicBlock| == 4 && |waiting| <= 4
      && (forall i :: 0 <= i < 4 ==> |sortedBasicBlock[i]| == S2_BASE)
      && forall i :: 0 <= i < |waiting| ==> |waiting[i]| == S2_BASE && sortedBasicBlock[i] == Sort(waiting[i])
    }

    constructor ()
      ensures Valid() && merged == [] && waiting == []
    {
      globalTopkUb := Pads(BASE_TOPK);
      sortedBasicBlock := seq(4, _ => Pads(S2_BASE));
      blockS2StartIdx, merged, waiting := 0, [], [];
      NothingMerged();
    }

    // The lane after n key blocks of a row, counted from block p. Rows of small batches are kept four
    // sorted blocks at a time; other rows are merged block by block.
    ghost predicate Running(score: Scores, len: int, p: nat, n: nat, actS1Size: nat)
      reads this
    {
      && Valid()
      && blockS2StartIdx == p
      && merged + Flat(waiting) == Seen(score, len, p, p + n)
      && |waiting| == (if actS1Size > 4 then 0 else n % 4)
      && (n < 4 && actS1Size <= 4 ==> merged == [])
    }

    // The state in which the lane may take key block s2Idx of a piece that begins at block p.
    ghost predicate Ready(info: RunInfo, score: Scores, len: int, p: nat)
      reads this
    {
      && Valid() && p <= info.s2Idx
      && if info.s2Idx == p then (if info.loop == 0 then merged == [] && waiting == [] else p == 0)
         else info.loop != 0 && blockS2StartIdx == p
              && (info.s2Idx * S2_BASE < len ==> Running(score, len, p, info.s2Idx - p, info.actS1Size))
    }

    // InitSortOutBuf on the row's running list.
    method InitSortOutBuf()
      modifies this`globalTopkUb, this`merged, this`waiting
      ensures merged == [] && waiting == [] && globalTopkUb == Top(BASE_TOPK, merged)
    {
      globalTopkUb, merged, waiting := Pads(BASE_TOPK), [], [];
      NothingMerged();
    }

    method ProcessVec(info: RunInfo, score: Scores, cuRealAcSeq: int, ghost p: nat) returns (e: Emit)
      requires cuRealAcSeq > 0 && Ready(info, score, cuRealAcSeq, p)
      modifies this
      ensures Valid() && blockS2StartIdx == (if info.isLastS2InnerLoop then 0 else p)
      ensures e == if info.s2Idx * S2_BASE < cuRealAcSeq then
                     EmitOf(Top(BASE_TOPK, Seen(score, cuRealAcSeq, p, info.s2Idx + 1)), p,
                            (info.s2Idx + 1) * S2_BASE >= cuRealAcSeq, info.isAllLoopEnd)
                   else Nothing
      ensures (info.s2Idx + 1) * S2_BASE < cuRealAcSeq && !info.isAllLoopEnd && !info.isLastS2InnerLoop ==>
                Running(score, cuRealAcSeq, p, info.s2Idx - p + 1, info.actS1Size)
    {
      StartBlock(info, score, cuRealAcSeq, p);
      e := Nothing;
      var cuBaseS2Idx := info.s2Idx * S2_BASE;
      var cuS2Len := if cuBaseS2Idx + S2_BASE >= cuRealAcSeq then cuRealAcSeq - cuBaseS2Idx else S2_BASE;
      if cuS2Len > 0 {
        var isS2End := cuBaseS2Idx + S2_BASE >= cuRealAcSeq;
        TakeBlock(info, score, cuRealAcSeq, p, isS2End);
        var needCopyOutGm := blockS2StartIdx == 0 && isS2End;
        var needCopyWsGm := info.isAllLoopEnd || isS2End;
        if needCopyOutGm {
          e := Out(globalTopkUb);
          InitSortOutBuf();
        } else if needCopyWsGm {
          var isTailReduce := blockS2StartIdx == 0;
          e := if isTailReduce then Tail(globalTopkUb, isS2End) else Head(globalTopkUb, isS2End);
        }
      }
      if info.isLastS2InnerLoop {
        blockS2StartIdx := 0;
      }
    }

    // The reset at the start of a row, and of the core's first row.
    method StartBlock(info: RunInfo, score: Scores, len: int, ghost p: nat)
      requires Ready(info, score, len, p)
      modifies this
      ensures Valid() && blockS2StartIdx == p
      ensures info.s2Idx * S2_BASE < len ==> Running(score, len, p, info.s2Idx - p, info.actS1Size)
    {
      if info.loop != 0 && info.s2Idx == 0 {
        InitSortOutBuf();
        blockS2StartIdx := 0;
      } else if info.loop == 0 {
        blockS2StartIdx := info.s2Idx;
      }
      NothingSeen(score, len, p);
    }

    // Sorts the block into the lane.
    method TakeBlock(info: RunInfo, score: Scores, len: int, ghost p: nat, isS2End: bool)
      requires p <= info.s2Idx && Running(score, len, p, info.s2Idx - p, info.actS1Size)
      modifies this`globalTopkUb, this`sortedBasicBlock, this`merged, this`waiting
      ensures Valid()
      ensures !isS2End && !info.isAllLoopEnd ==> Running(score, len, p, info.s2Idx - p + 1, info.actS1Size)
      ensures isS2End || info.isAllLoopEnd ==> merged == Seen(score, len, p, info.s2Idx + 1)
    {
      var block := BlockEntries(score, len, info.s2Idx);
      SeenStep(score, len, p, info.s2Idx, merged, waiting);
      if info.actS1Size > 4 {
        MergeAtOnce(block);
      } else {
        MergeByFour(info, block, isS2End);
      }
      EmptyTail(merged, waiting);
    }

    // The path for large query batches: sort the block by runs and merge it into the running list.
    method MergeAtOnce(block: seq<Entry>)
      requires Valid() && waiting == [] && |block| == S2_BASE
      modifies this`globalTopkUb, this`merged
      ensures Valid() && merged == old(merged) + block
    {
      SortSorts(block);
      TopIsSorted(BASE_TOPK, merged);
      AddSorted(merged, block);
      SortAll.DocumentedLengths(S2_BASE);
      var sorted := SortAll.SortBlock(block);
      globalTopkUb := MergeSort(globalTopkUb, sorted);
      merged := merged + block;
    }

    // The path for small query batches: keep up to four blocks, sorted by the library, then merge them together.
    method MergeByFour(info: RunInfo, block: seq<Entry>, isS2End: bool)
      requires Valid() && |block| == S2_BASE && blockS2StartIdx <= info.s2Idx
      requires |waiting| == (info.s2Idx - blockS2StartIdx) % 4
      requires info.s2Idx - blockS2StartIdx < 4 ==> merged == []
      modifies this`globalTopkUb, this`sortedBasicBlock, this`merged, this`waiting
      ensures Valid()
      ensures if |old(waiting)| == 3 || isS2End || info.isAllLoopEnd
              then merged == old(merged) + Flat(old(waiting) + [block]) && waiting == []
              else merged == old(merged) && waiting == old(waiting) + [block]
    {
      var globalTopkUbCacheIdx := (info.s2Idx - blockS2StartIdx) % 4;
      sortedBasicBlock := sortedBasicBlock[globalTopkUbCacheIdx := Sort(block)];
      waiting := waiting + [block];
      if globalTopkUbCacheIdx == 3 || isS2End || info.isAllLoopEnd {
        if info.s2Idx - blockS2StartIdx < 4 {
          WriteFirst(globalTopkUbCacheIdx);
        } else {
          MergeCached(globalTopkUbCacheIdx);
        }
      }
    }

    // The first four blocks of a piece are merged straight over the empty running list.
    method WriteFirst(globalTopkUbCacheIdx: nat)
      requires Valid() && |waiting| == globalTopkUbCacheIdx + 1 && merged == []
      modifies this`globalTopkUb, this`merged, this`waiting
      ensures Valid() && merged == Flat(old(waiting)) && waiting == []
    {
      CacheIsSorted(waiting, sortedBasicBlock);
      var dst := MrgBasicBlock(sortedBasicBlock, globalTopkUbCacheIdx + 1);
      NothingMerged();
      FlatLength(waiting);
      FirstFour(Flat(waiting), dst);
      globalTopkUb := dst + globalTopkUb[|dst|..];
      merged, waiting := Flat(waiting), [];
    }

    // Later blocks are merged with each other first, then into the running list.
    method MergeCached(globalTopkUbCacheIdx: nat)
      requires Valid() && |waiting| == globalTopkUbCacheIdx + 1
      modifies this`globalTopkUb, this`sortedBasicBlock, this`merged, this`waiting
      ensures Valid() && merged == old(merged) + Flat(old(waiting)) && waiting == []
    {
      CacheIsSorted(waiting, sortedBasicBlock);
      var list := sortedBasicBlock[0];
      if globalTopkUbCacheIdx > 0 {
        list := MrgBasicBlock(sortedBasicBlock, globalTopkUbCacheIdx + 1);
        sortedBasicBlock := Overwrite(sortedBasicBlock, list);
      }
      TopIsSorted(BASE_TOPK, merged);
      SortSorts(Flat(waiting));
      AddSorted(merged, Flat(waiting));
      globalTopkUb := SparseTopK(globalTopkUb, list, BASE_TOPK);
      merged, waiting := merged + Flat(waiting), [];
    }
  }

  lemma NothingMerged()
    ensures Top(BASE_TOPK, []) == Pads(BASE_TOPK)
  {
    assert Sort([]) + Pads(BASE_TOPK) == Pads(BASE_TOPK);
  }

  lemma NothingSeen(score: Scores, len: int, p: nat)
    ensures Seen(score, len, p, p) == [] && [] + Flat([]) == []
  {
  }

  lemma EmptyTail(a: seq<Entry>, waiting: seq<seq<Entry>>)
    ensures waiting == [] ==> a + Flat(waiting) == a
  {
  }

  // Taking block q after blocks p .. q - 1, either into the merged entries or into the cache.
  lemma SeenStep(score: Scores, len: int, p: nat, q: nat, merged: seq<Entry>, waiting: seq<seq<Entry>>)
    requires p <= q
    ensures Seen(score, len, p, p) == []
    ensures merged + Flat(waiting) == Seen(score, len, p, q) ==>
              && merged + Flat(waiting + [BlockEntries(score, len, q)]) == Seen(score, len, p, q + 1)
              && (waiting == [] ==> merged + BlockEntries(score, len, q) == Seen(score, len, p, q + 1))
    ensures Flat([]) == []
    ensures if (q - p) % 4 == 3 then (q + 1 - p) % 4 == 0 else (q + 1 - p) % 4 == (q - p) % 4 + 1
  {
    FlatSnoc(waiting, BlockEntries(score, len, q));
    assert merged + (Flat(waiting) + BlockEntries(score, len, q)) == merged + Flat(waiting) + BlockEntries(score, len, q);
  }

  function Overwrite(slots: seq<seq<Entry>>, flat: seq<Entry>): (r: seq<seq<Entry>>)
    requires |slots| == 4 && forall i :: 0 <= i < 4 ==> |slots[i]| == S2_BASE
    ensures |r| == 4 && forall i :: 0 <= i < 4 ==> |r[i]| == S2_BASE
  {
    seq(4, i requires 0 <= i < 4 =>
      if (i + 1) * S2_BASE <= |flat| then flat[i * S2_BASE..(i + 1) * S2_BASE] else slots[i])
  }

  // Sorted blocks kept in the cache merge to the sorted list of what they hold.
  lemma CacheIsSorted(blocks: seq<seq<Entry>>, slots: seq<seq<Entry>>)
    requires 1 <= |blocks| <= |slots|
    requires forall i :: 0 <= i < |blocks| ==> slots[i] == Sort(blocks[i])
    ensures AllSorted(slots[..|blocks|])
    ensures Sort(Flat(slots[..|blocks|])) == Sort(Flat(blocks))
    ensures |blocks| == 1 ==> slots[0] == Sort(Flat(blocks))
  {
    forall i | 0 <= i < |blocks|
      ensures Sorted(slots[i])
    {
      SortSorts(blocks[i]);
    }
    FlatCacheBag(blocks, slots[..|blocks|]);
    SortSorts(Flat(blocks));
    SortIs(Flat(slots[..|blocks|]), Sort(Flat(blocks)));
    if |blocks| == 1 {
      assert blocks == [] + [blocks[0]];
      FlatSnoc([], blocks[0]);
      assert [] + blocks[0] == blocks[0];
    }
  }

  lemma {:induction false} FlatCacheBag(blocks: seq<seq<Entry>>, slots: seq<seq<Entry>>)
    requires |blocks| == |slots|
    requires forall i :: 0 <= i < |blocks| ==> slots[i] == Sort(blocks[i])
    ensures multiset(Flat(slots)) == multiset(Flat(blocks))
  {
    if blocks != [] {
      FlatCacheBag(blocks[1..], slots[1..]);
      SortSorts(blocks[0]);
    }
  }

  lemma {:induction false} FlatLength(blocks: seq<seq<Entry>>)
    requires forall i :: 0 <= i < |blocks| ==> |blocks[i]| == S2_BASE
    ensures |Flat(blocks)| == |blocks| * S2_BASE
  {
    if blocks != [] {
      FlatLength(blocks[1..]);
    }
  }

  lemma {:induction false} FlatSnoc(lists: seq<seq<Entry>>, x: seq<Entry>)
    ensures Flat(lists + [x]) == Flat(lists) + x
  {
    if lists == [] {
      assert ([] + [x])[1..] == [];
      assert Flat([x]) == x + [];
    } else {
      assert (lists + [x])[1..] == lists[1..] + [x];
      FlatSnoc(lists[1..], x);
    }
  }

  // The first four blocks fit the running list and are written over its padding.
  lemma FirstFour(s: seq<Entry>, dst: seq<Entry>)
    requires |dst| <= BASE_TOPK && dst == Sort(s)
    ensures dst + Pads(BASE_TOPK)[|dst|..] == Top(BASE_TOPK, s)
  {
  }

  // Merging a sorted block into the k best of what came before.
  lemma AddSorted(before: seq<Entry>, block: seq<Entry>)
    ensures Top(BASE_TOPK, Top(BASE_TOPK, before) + Sort(block)) == Top(BASE_TOPK, before + block)
  {
    SortSorts(block);
    TopOfSame(BASE_TOPK, Top(BASE_TOPK, before) + Sort(block), Top(BASE_TOPK, before) + block);
    TopAbsorbs(BASE_TOPK, before, block);
  }
}
