/** The alloc_extend kernel: the three parts of a request's tokens, and all requests over all cores. */
module AllocExtendKernel {
  import opened Arith
  import opened Buffers
  import opened Swizzle
  import opened AllocExtend

  // The first k tokens of request r have their slots.
  ghost predicate Filled(x: Batch, r: nat, k: int, ub: seq<int>)
    requires x.Valid() && r < |x.preLens|
  {
    |ub| == x.NewTokens(r) && forall i :: 0 <= i < k && i < |ub| ==> ub[i] == x.Slot(r, x.preLens[r] + i)
  }

  class KernelAllocExtent {
    const x: Batch
    const coreId: nat
    const totalBlockNum: nat
    const outIndices: array<int>
    const values: array<int>
    var outputStartLoc: nat
    var curExtendLen: nat

    constructor (x: Batch, coreId: nat, totalBlockNum: nat, outIndices: array<int>, values: array<int>)
      ensures this.x == x && this.coreId == coreId && this.totalBlockNum == totalBlockNum
      ensures this.outIndices == outIndices && this.values == values
    {
      this.x, this.coreId, this.totalBlockNum := x, coreId, totalBlockNum;
      this.outIndices, this.values := outIndices, values;
      outputStartLoc, curExtendLen := 0, 0;
    }

    // Running sums up to and including the request.
    method Sums(task: nat) returns (extendLensSum: nat, numNewPagesSum: nat, curNeedPages: nat)
      requires x.Ok() && task < |x.preLens|
      modifies `curExtendLen
      ensures extendLensSum == x.OutStart(task + 1) && numNewPagesSum == x.PageStart(task + 1)
      ensures curExtendLen == x.NewTokens(task) && curNeedPages == x.NewPages(task)
    {
      extendLensSum, numNewPagesSum, curNeedPages := 0, 0, 0;
      var i := 0;
      while i < task + 1
        invariant i <= task + 1
        invariant extendLensSum == x.OutStart(i) && numNewPagesSum == x.PageStart(i)
        invariant i > 0 ==> curExtendLen == x.NewTokens(i - 1) && curNeedPages == x.NewPages(i - 1)
      {
        var curSeq, curPreSeq := x.seqLens[i], x.preLens[i];
        PagesGrow(x.pageSize, curPreSeq, curSeq);
        curExtendLen := curSeq - curPreSeq;
        curNeedPages := CeilDiv(curSeq, x.pageSize) - CeilDiv(curPreSeq, x.pageSize);
        extendLensSum := extendLensSum + curExtendLen;
        numNewPagesSum := numNewPagesSum + curNeedPages;
        i := i + 1;
      }
    }

    // The rest of the page already begun.
    method Part1(task: nat, numPart1: nat, ub: array<int>)
      requires x.Valid() && task < |x.preLens| && ub.Length == x.NewTokens(task)
      requires x.preLens[task] + numPart1 == Min(x.seqLens[task], x.OldEnd(task))
      modifies ub
      ensures Filled(x, task, numPart1, ub[..])
    {
      var lastLoc := x.lastLoc[task];
      for i := 0 to numPart1
        invariant Filled(x, task, i, ub[..])
      {
        ub[i] := lastLoc + 1 + i;
      }
    }

    // Full new pages, one after the other.
    method Part2(task: nat, numPart1: nat, pages: nat, newPagesStartLoc: nat, ub: array<int>)
      requires x.Valid() && task < |x.preLens| && newPagesStartLoc == x.PageStart(task)
      requires x.preLens[task] + numPart1 == x.OldEnd(task)
      requires x.OldEnd(task) + TableAt(pages, x.pageSize) <= x.seqLens[task]
      requires Filled(x, task, numPart1, ub[..])
      modifies ub
      ensures Filled(x, task, numPart1 + TableAt(pages, x.pageSize), ub[..])
    {
      var page := 0;
      while page < pages
        invariant page <= pages
        invariant Filled(x, task, numPart1 + TableAt(page, x.pageSize), ub[..])
      {
        NextMultiple(page, x.pageSize);
        MulOrder(page + 1, pages, x.pageSize);
        FillPage(task, numPart1 + TableAt(page, x.pageSize), page, x.pageSize, newPagesStartLoc + page, ub);
        page := page + 1;
      }
    }

    // n tokens of one new page, from its first place on.
    method FillPage(task: nat, outOffset: nat, page: nat, n: nat, pageLoc: nat, ub: array<int>)
      requires x.Valid() && task < |x.preLens| && n <= x.pageSize && pageLoc == x.PageStart(task) + page
      requires x.preLens[task] + outOffset == x.OldEnd(task) + TableAt(page, x.pageSize)
      requires x.preLens[task] + outOffset + n <= x.seqLens[task] && n > 0
      requires Filled(x, task, outOffset, ub[..])
      modifies ub
      ensures Filled(x, task, outOffset + n, ub[..])
    {
      PlaceInPage(x, task, page, 0);
      var pageValue := x.freePages[pageLoc];
      for i := 0 to n
        invariant Filled(x, task, outOffset + i, ub[..])
      {
        PlaceInPage(x, task, page, i);
        ub[outOffset + i] := pageValue * x.pageSize + i;
      }
    }

    // The slots of one request.
    method Compute(task: nat) returns (ub: array<int>)
      requires x.Valid() && task < |x.preLens| && values.Length > 0
      modifies `outputStartLoc, `curExtendLen, values
      ensures fresh(ub) && ub[..] == x.Row(task)
      ensures outputStartLoc == x.OutStart(task) && curExtendLen == x.NewTokens(task)
      ensures values[0] == if task == |x.preLens| - 1 && ReachesPart3(x, task) then x.PageStart(|x.preLens|) else old(values[0])
    {
      var extendLensSum, numNewPagesSum, curNeedPages := Sums(task);
      outputStartLoc := extendLensSum - curExtendLen;
      var newPagesStartLoc := numNewPagesSum - curNeedPages;
      var curSeq, curPreSeq := x.seqLens[task], x.preLens[task];
      var f := PartSizes(x, task);
      var oldEnd := CeilDiv(curPreSeq, x.pageSize) * x.pageSize;
      var numPart1: nat := Min(curSeq, oldEnd) - curPreSeq;
      ub := new int[curExtendLen];
      Part1(task, numPart1, ub);
      if curPreSeq + numPart1 == curSeq {
        RowDone(x, task, ub[..]);
        return;
      }
      var numPart2 := curSeq / x.pageSize * x.pageSize - oldEnd;
      if numPart2 > 0 {
        Part2(task, numPart1, numPart2 / x.pageSize, newPagesStartLoc, ub);
      }
      if curPreSeq + numPart1 + numPart2 == curSeq {
        RowDone(x, task, ub[..]);
        return;
      }
      var numPart3 := curSeq - curSeq / x.pageSize * x.pageSize;
      FillPage(task, numPart1 + numPart2, curNeedPages - 1, numPart3, newPagesStartLoc + curNeedPages - 1, ub);
      if task == |x.preLens| - 1 {
        values[0] := numNewPagesSum;
      }
      RowDone(x, task, ub[..]);
    }

    // One request: its slots are computed and copied to its place in the output.
    method Serve(task: nat, ghost start: seq<int>)
      requires x.Valid() && task < |x.preLens| && totalBlockNum > 0 && task % totalBlockNum == coreId
      requires values.Length > 0 && values != outIndices && outIndices.Length == x.OutStart(|x.preLens|)
      requires Served(x, coreId, totalBlockNum, task, start, outIndices[..])
      modifies this, outIndices, values
      ensures Served(x, coreId, totalBlockNum, task + totalBlockNum, start, outIndices[..])
      ensures values[0] == if task == |x.preLens| - 1 && LastStores(x) then x.PageStart(|x.preLens|) else old(values[0])
    {
      var ub := Compute(task);
      ghost var before := outIndices[..];
      RowInside(x, task);
      DataCopy(outIndices, outputStartLoc, ub[..]);
      OneServed(x, coreId, totalBlockNum, task, start, before, outIndices[..]);
    }

    // The requests whose number is this core's modulo the number of cores; the page total is stored by the core of
    // the last request, if that has a partly filled last page.
    method Process()
      requires x.Valid() && coreId < totalBlockNum && values.Length > 0 && values != outIndices
      requires outIndices.Length == x.OutStart(|x.preLens|)
      modifies this, outIndices, values
      ensures Served(x, coreId, totalBlockNum, |x.preLens|, old(outIndices[..]), outIndices[..])
      ensures values[0] == if LastStores(x) && (|x.preLens| - 1) % totalBlockNum == coreId then x.PageStart(|x.preLens|)
                           else old(values[0])
    {
      var task := coreId;
      DivModOfSum(0, totalBlockNum, coreId);
      NothingServed(x, coreId, totalBlockNum, outIndices[..]);
      LastNotYet(x, coreId, totalBlockNum);
      while task < |x.preLens|
        invariant task % totalBlockNum == coreId
        invariant Served(x, coreId, totalBlockNum, task, old(outIndices[..]), outIndices[..])
        invariant values[0] == if LastStores(x) && LastIsServed(x, coreId, totalBlockNum, task) then
                                 x.PageStart(|x.preLens|) else old(values[0])
        decreases |x.preLens| - task
      {
        Serve(task, old(outIndices[..]));
        LastMoves(x, coreId, totalBlockNum, task);
        task := task + totalBlockNum;
      }
    }
  }

  // All cores: afterwards every request's tokens have their slots, whatever the output held before.
  method Launch(x: Batch, totalBlockNum: nat, outIndices: array<int>, values: array<int>)
    requires x.Valid() && totalBlockNum > 0 && values.Length > 0 && values != outIndices
    requires outIndices.Length == x.OutStart(|x.preLens|)
    modifies outIndices, values
    ensures forall r, p :: 0 <= r < |x.preLens| && x.preLens[r] <= p < x.seqLens[r] ==>
              Place(x, r, p) < outIndices.Length && outIndices[Place(x, r, p)] == x.Slot(r, p)
    ensures values[0] == if |x.preLens| > 0 && ReachesPart3(x, |x.preLens| - 1) then x.PageStart(|x.preLens|)
                         else old(values[0])
  {
    var core := 0;
    while core < totalBlockNum
      invariant core <= totalBlockNum
      invariant Launched(x, totalBlockNum, core, old(outIndices[..]), outIndices[..])
      invariant values[0] == if LastStores(x) && (|x.preLens| - 1) % totalBlockNum < core then x.PageStart(|x.preLens|)
                             else old(values[0])
    {
      ghost var before := outIndices[..];
      var kernel := new KernelAllocExtent(x, core, totalBlockNum, outIndices, values);
      kernel.Process();
      CoreServed(x, totalBlockNum, core, old(outIndices[..]), before, outIndices[..]);
      core := core + 1;
    }
    LastHasCore(x, totalBlockNum);
    forall r, p | 0 <= r < |x.preLens| && x.preLens[r] <= p < x.seqLens[r]
      ensures Place(x, r, p) < outIndices.Length && outIndices[Place(x, r, p)] == x.Slot(r, p)
    {
      AllServed(x, totalBlockNum, old(outIndices[..]), outIndices[..], r, p);
    }
  }

  // Where the token at position p of request r stands in the output.
  function Place(x: Batch, r: nat, p: nat): nat
    requires x.Ok() && r < |x.preLens| && x.preLens[r] <= p < x.seqLens[r]
  {
    x.OutStart(r) + (p - x.preLens[r])
  }

  // The piece of the output that belongs to request r.
  ghost function Piece(x: Batch, out: seq<int>, r: nat): seq<int>
    requires x.Ok() && r < |x.preLens| && |out| == x.OutStart(|x.preLens|)
  {
    RowInside(x, r);
    out[x.OutStart(r)..x.OutStart(r + 1)]
  }

  lemma RowInside(x: Batch, r: nat)
    requires x.Ok() && r < |x.preLens|
    ensures x.OutStart(r) + x.NewTokens(r) == x.OutStart(r + 1) <= x.OutStart(|x.preLens|)
  {
    PageStartGrows(x, r + 1, |x.preLens|);
  }

  // The pieces tile the output: every place belongs to exactly one token.
  lemma PiecesTile(x: Batch, k: nat) returns (r: nat, p: nat)
    requires x.Ok() && k < x.OutStart(|x.preLens|)
    ensures r < |x.preLens| && x.preLens[r] <= p < x.seqLens[r] && Place(x, r, p) == k
    ensures forall q, o :: 0 <= q < |x.preLens| && x.preLens[q] <= o < x.seqLens[q] && Place(x, q, o) == k ==> q == r && o == p
  {
    r := FindPiece(x, k, |x.preLens|);
    p := x.preLens[r] + (k - x.OutStart(r));
    forall q, o | 0 <= q < |x.preLens| && x.preLens[q] <= o < x.seqLens[q] && Place(x, q, o) == k
      ensures q == r && o == p
    {
      if q < r {
        PageStartGrows(x, q + 1, r);
      } else if r < q {
        PageStartGrows(x, r + 1, q);
      }
    }
  }

  lemma {:induction false} FindPiece(x: Batch, k: nat, n: nat) returns (r: nat)
    requires x.Ok() && n <= |x.preLens| && k < x.OutStart(n)
    ensures r < n && x.OutStart(r) <= k < x.OutStart(r + 1)
  {
    if k >= x.OutStart(n - 1) {
      r := n - 1;
    } else {
      r := FindPiece(x, k, n - 1);
    }
  }

  // The output when core `core` has done its requests below `limit`: those have their slots, all others are
  // as before.
  ghost predicate Served(x: Batch, core: nat, cores: nat, limit: nat, before: seq<int>, now: seq<int>)
    requires x.Valid() && cores > 0
  {
    && |now| == |before| == x.OutStart(|x.preLens|)
    && forall r :: 0 <= r < |x.preLens| ==>
         Piece(x, now, r) == if r % cores == core && r < limit then x.Row(r) else Piece(x, before, r)
  }

  lemma NothingServed(x: Batch, core: nat, cores: nat, out: seq<int>)
    requires x.Valid() && core < cores && |out| == x.OutStart(|x.preLens|)
    ensures Served(x, core, cores, core, out, out)
  {
    forall r | 0 <= r < |x.preLens| && r % cores == core
      ensures r >= core
    {
      DivModIs(r, cores);
    }
  }

  lemma OtherPiece(x: Batch, r: nat, out: seq<int>, row: seq<int>, q: nat)
    requires x.Ok() && r < |x.preLens| && q < |x.preLens| && |out| == x.OutStart(|x.preLens|) && |row| == x.NewTokens(r)
    ensures x.OutStart(r) + |row| <= |out|
    ensures Piece(x, Patch(out, x.OutStart(r), row), q) == if q == r then row else Piece(x, out, q)
  {
    RowInside(x, r);
    RowInside(x, q);
    if q < r {
      PageStartGrows(x, q + 1, r);
    } else if r < q {
      PageStartGrows(x, r + 1, q);
    }
  }

  lemma OneServed(x: Batch, core: nat, cores: nat, r: nat, start: seq<int>, before: seq<int>, now: seq<int>)
    requires x.Valid() && cores > 0 && r < |x.preLens| && r % cores == core && Served(x, core, cores, r, start, before)
    requires x.OutStart(r) + x.NewTokens(r) <= |before| && now == Patch(before, x.OutStart(r), x.Row(r))
    ensures Served(x, core, cores, r + cores, start, now)
  {
    forall q | 0 <= q < |x.preLens|
      ensures Piece(x, now, q) == if q % cores == core && q < r + cores then x.Row(q) else Piece(x, start, q)
    {
      OtherPiece(x, r, before, x.Row(r), q);
      StrideNext(q, core, cores, r);
    }
  }

  ghost predicate Launched(x: Batch, cores: nat, c: nat, before: seq<int>, now: seq<int>)
    requires x.Valid() && cores > 0
  {
    && |now| == |before| == x.OutStart(|x.preLens|)
    && forall r :: 0 <= r < |x.preLens| ==>
         Piece(x, now, r) == if r % cores < c then x.Row(r) else Piece(x, before, r)
  }

  lemma CoreServed(x: Batch, cores: nat, c: nat, start: seq<int>, before: seq<int>, now: seq<int>)
    requires x.Valid() && c < cores && Launched(x, cores, c, start, before)
    requires Served(x, c, cores, |x.preLens|, before, now)
    ensures Launched(x, cores, c + 1, start, now)
  {
  }

  lemma AllServed(x: Batch, cores: nat, start: seq<int>, now: seq<int>, r: nat, p: nat)
    requires x.Valid() && cores > 0 && Launched(x, cores, cores, start, now)
    requires r < |x.preLens| && x.preLens[r] <= p < x.seqLens[r]
    ensures Place(x, r, p) < |now| && now[Place(x, r, p)] == x.Slot(r, p)
  {
    RowInside(x, r);
    DivModIs(r, cores);
    assert Piece(x, now, r)[p - x.preLens[r]] == x.Row(r)[p - x.preLens[r]];
  }

  // Place i of new page `page` is the place of the token that stands there.
  lemma PlaceInPage(x: Batch, r: nat, page: nat, i: nat)
    requires x.Valid() && r < |x.preLens| && i < x.pageSize
    requires x.OldEnd(r) + TableAt(page, x.pageSize) + i < x.seqLens[r]
    ensures var p := x.OldEnd(r) + TableAt(page, x.pageSize) + i;
            x.preLens[r] <= p && x.PageIndex(r, p) == x.PageStart(r) + page && p % x.pageSize == i
  {
    var a := x.Pages(x.preLens[r]);
    Distribute(a, page, x.pageSize);
    DivModOfSum(a + page, x.pageSize, i);
    CeilDivGalois(x.preLens[r], x.pageSize, a);
  }

  lemma RowDone(x: Batch, r: nat, ub: seq<int>)
    requires x.Valid() && r < |x.preLens| && Filled(x, r, x.NewTokens(r), ub)
    ensures ub == x.Row(r)
  {
  }

  // The last request stores the page total.
  ghost predicate LastStores(x: Batch)
    requires x.Ok()
  {
    |x.preLens| > 0 && ReachesPart3(x, |x.preLens| - 1)
  }

  // The last request is one of the core's, below limit.
  ghost predicate LastIsServed(x: Batch, core: nat, cores: nat, limit: nat)
    requires cores > 0
  {
    (|x.preLens| - 1) % cores == core && |x.preLens| - 1 < limit
  }

  lemma LastNotYet(x: Batch, core: nat, cores: nat)
    requires core < cores
    ensures !LastIsServed(x, core, cores, core) || |x.preLens| == 0
  {
    if |x.preLens| > 0 {
      DivModIs(|x.preLens| - 1, cores);
    }
  }

  lemma LastMoves(x: Batch, core: nat, cores: nat, task: nat)
    requires cores > 0 && task < |x.preLens| && task % cores == core
    ensures (task + cores) % cores == core
    ensures LastIsServed(x, core, cores, task + cores) <==> LastIsServed(x, core, cores, task) || task == |x.preLens| - 1
  {
    StrideNext(|x.preLens| - 1, core, cores, task);
  }

  lemma LastHasCore(x: Batch, cores: nat)
    requires cores > 0
    ensures |x.preLens| > 0 ==> 0 <= (|x.preLens| - 1) % cores < cores
  {
    if |x.preLens| > 0 {
      DivModIs(|x.preLens| - 1, cores);
    }
  }

  // The request has tokens in a last, partly filled page of its own.
  ghost predicate ReachesPart3(x: Batch, r: nat)
    requires x.Ok() && r < |x.preLens|
  {
    x.OldEnd(r) < x.seqLens[r] && x.seqLens[r] % x.pageSize != 0
  }

  // How the three parts fit together: f full pages up to the new length.
  lemma PartSizes(x: Batch, r: nat) returns (f: nat)
    requires x.Ok() && r < |x.preLens|
    ensures x.preLens[r] <= x.OldEnd(r) && f == x.seqLens[r] / x.pageSize
    ensures x.OldEnd(r) < x.seqLens[r] ==>
              && x.Pages(x.preLens[r]) <= f
              && f * x.pageSize - x.OldEnd(r) == TableAt(f - x.Pages(x.preLens[r]), x.pageSize)
              && (f * x.pageSize - x.OldEnd(r)) / x.pageSize == f - x.Pages(x.preLens[r])
    ensures f * x.pageSize <= x.seqLens[r] < f * x.pageSize + x.pageSize
    ensures x.seqLens[r] % x.pageSize == x.seqLens[r] - f * x.pageSize
    ensures x.Pages(x.seqLens[r]) == f + (if x.seqLens[r] % x.pageSize == 0 then 0 else 1)
  {
    var P, pre, end := x.pageSize, x.preLens[r], x.seqLens[r];
    f := end / P;
    var a := x.Pages(pre);
    DivModIs(end, P);
    CeilDivGalois(pre, P, a);
    CeilOfQuotient(end, P, f);
    if x.OldEnd(r) < end {
      MulOrder(f + 1, a, P);
      NextMultiple(f, P);
      Distribute(a, f - a, P);
      DivModOfSum(f - a, P, 0);
    }
  }

  lemma CeilOfQuotient(a: nat, P: nat, f: nat)
    requires P > 0 && f * P <= a < f * P + P
    ensures CeilDiv(a, P) == f + (if a == f * P then 0 else 1)
  {
    NextMultiple(f, P);
    if a > f * P {
      CeilDivUnique(a, P, f + 1);
    } else if f > 0 {
      NextMultiple(f - 1, P);
      CeilDivUnique(a, P, f);
    }
  }
}
