/** Writing cache locations into the token pool, and reading them back. */
module CacheLocAssign {
  import opened Arith
  import opened Buffers
  import opened Swizzle

  const MAX_STEP: nat := 5

  // Request r has places start[r] .. end[r] of row idx[r] of the pool.
  datatype Batch = Batch(rowSize: nat, poolSize: nat, idx: seq<nat>, start: seq<nat>, end: seq<nat>)
  {
    ghost predicate Valid() {
      && |start| == |end| == |idx|
      && (forall r :: 0 <= r < |idx| ==> RowOk(r))
      && forall r, q :: 0 <= r < q < |idx| ==> idx[r] != idx[q]
    }

    ghost predicate RowOk(r: nat)
      requires r < |idx| == |start| == |end|
    {
      idx[r] < poolSize && start[r] <= end[r] <= start[r] + MAX_STEP && start[r] + MAX_STEP <= rowSize
    }

    // How many locations a request has.
    function Step(r: nat): int
      requires r < |start| == |end|
    {
      end[r] as int - start[r] as int
    }

    // Where the locations of request r start in the list.
    function CacheStart(r: nat): int
      requires r <= |start| == |end|
    {
      if r == 0 then 0 else CacheStart(r - 1) + Step(r - 1)
    }

    // Where its places in the pool start.
    function PoolAt(r: nat): nat
      requires r < |idx| == |start|
    {
      TableAt(idx[r], rowSize) + start[r]
    }

    lemma {:induction false} CacheStartGrows(r: nat, q: nat)
      requires Valid() && r <= q <= |idx|
      ensures 0 <= CacheStart(r) <= CacheStart(q)
      decreases q
    {
      if q > 0 {
        if r < q {
          CacheStartGrows(r, q - 1);
        } else {
          CacheStartGrows(0, q - 1);
        }
        assert RowOk(q - 1);
      }
    }

    lemma LocsInside(r: nat)
      requires Valid() && r < |idx|
      ensures 0 <= CacheStart(r) && 0 <= Step(r) && CacheStart(r) + Step(r) <= CacheStart(|idx|)
    {
      CacheStartGrows(0, r);
      CacheStartGrows(r + 1, |idx|);
      assert RowOk(r);
    }

    lemma PoolPlace(r: nat)
      requires Valid() && r < |idx|
      ensures 0 <= Step(r) <= MAX_STEP && PoolAt(r) + MAX_STEP <= TableAt(poolSize, rowSize)
    {
      assert RowOk(r);
      MulOrder(idx[r], poolSize, rowSize);
    }

    // Different requests use different rows.
    lemma PlacesApart(r: nat, q: nat)
      requires Valid() && r < |idx| && q < |idx| && r != q
      ensures PoolAt(r) + MAX_STEP <= PoolAt(q) || PoolAt(q) + MAX_STEP <= PoolAt(r)
    {
      assert RowOk(r) && RowOk(q);
      MulOrder(idx[r], idx[q], rowSize);
      MulOrder(idx[q], idx[r], rowSize);
    }
  }

  function At(s: seq<int>, a: int): int {
    if 0 <= a < |s| then s[a] else 0
  }

  // Token k of request r in the pool, and its location in the list.
  function Token(b: Batch, pool: seq<int>, r: nat, k: nat): int
    requires r < |b.idx| == |b.start|
  {
    At(pool, b.idx[r] * b.rowSize + b.start[r] + k)
  }

  function Loc(b: Batch, cacheLoc: seq<int>, r: nat, k: nat): int
    requires r < |b.idx| == |b.start| == |b.end|
  {
    At(cacheLoc, b.CacheStart(r) + k)
  }

  // No request of lo .. hi has place a of the pool in its range.
  ghost predicate Outside(b: Batch, lo: nat, hi: nat, a: int)
    requires hi <= |b.idx| == |b.start| == |b.end|
  {
    forall r :: lo <= r < hi ==> !(b.start[r] <= a - b.idx[r] * b.rowSize < b.end[r])
  }

  // The pool after requests lo .. hi: each range holds its locations, nothing else has changed.
  ghost predicate Assigned(b: Batch, cacheLoc: seq<int>, lo: nat, hi: nat, before: seq<int>, after: seq<int>)
    requires b.Valid() && hi <= |b.idx|
  {
    && |after| == |before| == TableAt(b.poolSize, b.rowSize)
    && (forall r: nat, k: nat :: lo <= r < hi && k < b.Step(r) ==> Token(b, after, r, k) == Loc(b, cacheLoc, r, k))
    && forall a :: 0 <= a < |after| && Outside(b, lo, hi, a) ==> after[a] == before[a]
  }

  // The list after the first n requests were read back: their tokens, and the rest as before.
  ghost predicate Updated(b: Batch, pool: seq<int>, n: nat, before: seq<int>, after: seq<int>)
    requires b.Valid() && n <= |b.idx|
  {
    && |after| == |before| >= b.CacheStart(|b.idx|)
    && (forall r: nat, k: nat :: r < n && k < b.Step(r) ==> Loc(b, after, r, k) == Token(b, pool, r, k))
    && forall a :: 0 <= a < |after| && b.CacheStart(n) <= a ==> after[a] == before[a]
  }

  // Place start[r] + k of row idx[r] of the pool holds location k of request r, which stands behind those of the
  // requests before it.
  lemma AssignedMeans(b: Batch, cacheLoc: seq<int>, before: seq<int>, after: seq<int>, r: nat, k: nat)
    requires b.Valid() && b.CacheStart(|b.idx|) <= |cacheLoc| && Assigned(b, cacheLoc, 0, |b.idx|, before, after)
    requires r < |b.idx| && b.start[r] + k < b.end[r]
    ensures 0 <= b.idx[r] * b.rowSize + b.start[r] + k < |after| && 0 <= b.CacheStart(r) + k < |cacheLoc|
    ensures after[b.idx[r] * b.rowSize + b.start[r] + k] == cacheLoc[b.CacheStart(r) + k]
  {
    b.LocsInside(r);
    b.PoolPlace(r);
    assert Token(b, after, r, k) == Loc(b, cacheLoc, r, k);
  }

  // Everything else in the pool stays: the places of row idx[r] outside start[r] up to end[r], and the rows that no
  // request names.
  lemma AssignedElsewhere(b: Batch, cacheLoc: seq<int>, before: seq<int>, after: seq<int>, row: nat, c: nat)
    requires b.Valid() && Assigned(b, cacheLoc, 0, |b.idx|, before, after) && row < b.poolSize && c < b.rowSize
    requires forall r :: 0 <= r < |b.idx| && b.idx[r] == row ==> c < b.start[r] || b.end[r] <= c
    ensures 0 <= row * b.rowSize + c < |after| == |before|
    ensures after[row * b.rowSize + c] == before[row * b.rowSize + c]
  {
    var a := row * b.rowSize + c;
    MulOrder(row, b.poolSize, b.rowSize);
    forall r | 0 <= r < |b.idx|
      ensures !(b.start[r] <= a - b.idx[r] * b.rowSize < b.end[r])
    {
      assert b.RowOk(r);
      MulOrder(b.idx[r], row, b.rowSize);
      MulOrder(row, b.idx[r], b.rowSize);
    }
  }

  // Location k of request r is what place start[r] + k of row idx[r] of the pool holds.
  lemma UpdatedMeans(b: Batch, pool: seq<int>, before: seq<int>, after: seq<int>, r: nat, k: nat)
    requires b.Valid() && |pool| == TableAt(b.poolSize, b.rowSize) && Updated(b, pool, |b.idx|, before, after)
    requires r < |b.idx| && b.start[r] + k < b.end[r]
    ensures 0 <= b.idx[r] * b.rowSize + b.start[r] + k < |pool| && 0 <= b.CacheStart(r) + k < |after|
    ensures after[b.CacheStart(r) + k] == pool[b.idx[r] * b.rowSize + b.start[r] + k]
  {
    b.LocsInside(r);
    b.PoolPlace(r);
    assert Loc(b, after, r, k) == Token(b, pool, r, k);
  }

  // Assigning and then reading back gives the list again on the part that is in use, whatever the list
  // that is read into held there.
  lemma RoundTrip(b: Batch, cacheLoc: seq<int>, pool: seq<int>, pool': seq<int>, target: seq<int>, target': seq<int>)
    requires b.Valid() && b.CacheStart(|b.idx|) <= |cacheLoc|
    requires Assigned(b, cacheLoc, 0, |b.idx|, pool, pool') && Updated(b, pool', |b.idx|, target, target')
    ensures forall a :: 0 <= a < b.CacheStart(|b.idx|) ==> a < |target'| && target'[a] == cacheLoc[a]
  {
    forall a | 0 <= a < b.CacheStart(|b.idx|)
      ensures target'[a] == cacheLoc[a]
    {
      var r := OwnerOf(b, a, |b.idx|);
      var k: nat := a - b.CacheStart(r);
      assert Token(b, pool', r, k) == Loc(b, cacheLoc, r, k);
      assert Loc(b, target', r, k) == Token(b, pool', r, k);
    }
  }

  lemma {:induction false} OwnerOf(b: Batch, a: nat, n: nat) returns (r: nat)
    requires b.Valid() && n <= |b.idx| && a < b.CacheStart(n)
    ensures r < n && 0 <= b.CacheStart(r) <= a < b.CacheStart(r + 1)
  {
    b.CacheStartGrows(0, n - 1);
    if a >= b.CacheStart(n - 1) {
      r := n - 1;
    } else {
      r := OwnerOf(b, a, n - 1);
    }
  }

  // What the kernel writes for one request: its locations, and up to MAX_STEP places what stood there.
  ghost predicate IsRow(b: Batch, cacheLoc: seq<int>, pool: seq<int>, r: nat, row: seq<int>)
    requires b.Valid() && r < |b.idx|
  {
    && |row| == MAX_STEP
    && forall k: nat :: k < MAX_STEP ==>
         row[k] == if k < b.Step(r) then Loc(b, cacheLoc, r, k) else Token(b, pool, r, k)
  }

  lemma OneAssigned(b: Batch, cacheLoc: seq<int>, lo: nat, r: nat, before: seq<int>, mid: seq<int>, row: seq<int>)
    requires b.Valid() && lo <= r < |b.idx| && Assigned(b, cacheLoc, lo, r, before, mid) && IsRow(b, cacheLoc, mid, r, row)
    ensures b.PoolAt(r) + MAX_STEP <= |mid|
    ensures Assigned(b, cacheLoc, lo, r + 1, before, Patch(mid, b.PoolAt(r), row))
  {
    b.PoolPlace(r);
    var after := Patch(mid, b.PoolAt(r), row);
    forall q: nat, k: nat | lo <= q < r + 1 && k < b.Step(q)
      ensures Token(b, after, q, k) == Loc(b, cacheLoc, q, k)
    {
      b.PoolPlace(q);
      if q < r {
        b.PlacesApart(q, r);
        assert Token(b, mid, q, k) == Loc(b, cacheLoc, q, k);
      }
    }
    forall a | 0 <= a < |after| && Outside(b, lo, r + 1, a)
      ensures after[a] == before[a]
    {
      assert Outside(b, lo, r, a);
      RowElsewhere(b, cacheLoc, mid, r, row, a);
    }
  }

  lemma RowElsewhere(b: Batch, cacheLoc: seq<int>, mid: seq<int>, r: nat, row: seq<int>, a: nat)
    requires b.Valid() && r < |b.idx| && IsRow(b, cacheLoc, mid, r, row) && a < |mid| && b.PoolAt(r) + MAX_STEP <= |mid|
    requires !(b.PoolAt(r) <= a < b.PoolAt(r) + b.Step(r))
    ensures Patch(mid, b.PoolAt(r), row)[a] == mid[a]
  {
    if b.PoolAt(r) <= a < b.PoolAt(r) + MAX_STEP {
      RowKeeps(b, cacheLoc, mid, r, row, b.PoolAt(r), a - b.PoolAt(r));
    }
  }

  lemma RowKeeps(b: Batch, cacheLoc: seq<int>, pool: seq<int>, r: nat, row: seq<int>, at: nat, k: nat)
    requires b.Valid() && r < |b.idx| && IsRow(b, cacheLoc, pool, r, row) && at == b.PoolAt(r)
    requires b.Step(r) <= k < MAX_STEP && at + k < |pool|
    ensures row[k] == pool[at + k]
  {
    assert row[k] == Token(b, pool, r, k);
  }

  lemma OneUpdated(b: Batch, pool: seq<int>, r: nat, before: seq<int>, mid: seq<int>, after: seq<int>)
    requires b.Valid() && r < |b.idx| && Updated(b, pool, r, before, mid) && |after| == |mid|
    requires forall k: nat :: k < b.Step(r) ==> Loc(b, after, r, k) == Token(b, pool, r, k)
    requires forall a :: 0 <= a < |mid| && !(b.CacheStart(r) <= a < b.CacheStart(r) + b.Step(r)) ==> after[a] == mid[a]
    ensures Updated(b, pool, r + 1, before, after)
  {
    LocsKept(b, pool, r, before, mid, after);
    NextStart(b, r);
    RestKept(before, mid, after, b.CacheStart(r), b.Step(r));
  }

  lemma NextStart(b: Batch, r: nat)
    requires b.Valid() && r < |b.idx|
    ensures b.CacheStart(r + 1) == b.CacheStart(r) + b.Step(r) && b.Step(r) >= 0
  {
    b.LocsInside(r);
  }

  lemma LocsKept(b: Batch, pool: seq<int>, r: nat, before: seq<int>, mid: seq<int>, after: seq<int>)
    requires b.Valid() && r < |b.idx| && Updated(b, pool, r, before, mid) && |after| == |mid|
    requires forall k: nat :: k < b.Step(r) ==> Loc(b, after, r, k) == Token(b, pool, r, k)
    requires forall a :: 0 <= a < |mid| && !(b.CacheStart(r) <= a < b.CacheStart(r) + b.Step(r)) ==> after[a] == mid[a]
    ensures forall q: nat, k: nat :: q < r + 1 && k < b.Step(q) ==> Loc(b, after, q, k) == Token(b, pool, q, k)
  {
    forall q: nat, k: nat | q < r + 1 && k < b.Step(q)
      ensures Loc(b, after, q, k) == Token(b, pool, q, k)
    {
      LocAt(b, pool, r, before, mid, after, q, k);
    }
  }

  lemma LocAt(b: Batch, pool: seq<int>, r: nat, before: seq<int>, mid: seq<int>, after: seq<int>, q: nat, k: nat)
    requires b.Valid() && r < |b.idx| && Updated(b, pool, r, before, mid) && |after| == |mid|
    requires q == r && k < b.Step(r) ==> Loc(b, after, r, k) == Token(b, pool, r, k)
    requires forall a :: 0 <= a < |mid| && !(b.CacheStart(r) <= a < b.CacheStart(r) + b.Step(r)) ==> after[a] == mid[a]
    requires q <= r && k < b.Step(q)
    ensures Loc(b, after, q, k) == Token(b, pool, q, k)
  {
    if q < r {
      LocKept(b, r, mid, after, q, k);
      LocWas(b, pool, r, before, mid, q, k);
    }
  }

  lemma LocWas(b: Batch, pool: seq<int>, r: nat, before: seq<int>, mid: seq<int>, q: nat, k: nat)
    requires b.Valid() && r < |b.idx| && Updated(b, pool, r, before, mid) && q < r && k < b.Step(q)
    ensures Loc(b, mid, q, k) == Token(b, pool, q, k)
  {
  }

  lemma RestKept(before: seq<int>, mid: seq<int>, after: seq<int>, at: int, n: int)
    requires |after| == |mid| == |before| && n >= 0
    requires forall a :: 0 <= a < |mid| && at <= a ==> mid[a] == before[a]
    requires forall a :: 0 <= a < |mid| && !(at <= a < at + n) ==> after[a] == mid[a]
    ensures forall a :: 0 <= a < |after| && at + n <= a ==> after[a] == before[a]
  {
  }

  lemma LocKept(b: Batch, r: nat, mid: seq<int>, after: seq<int>, q: nat, k: nat)
    requires b.Valid() && q < r < |b.idx| && k < b.Step(q) && |after| == |mid| >= b.CacheStart(|b.idx|)
    requires forall a :: 0 <= a < |mid| && !(b.CacheStart(r) <= a < b.CacheStart(r) + b.Step(r)) ==> after[a] == mid[a]
    ensures Loc(b, after, q, k) == Loc(b, mid, q, k)
  {
    b.CacheStartGrows(q + 1, r);
    b.LocsInside(q);
  }

  // ----- the kernel -----

  class CacheLocAssignKernel {
    const b: Batch
    const rowOffset: nat
    const rowNum: nat
    const tokenPool: array<int>
    const cacheLoc: array<int>
    var lastRowIdx: nat
    var cacheIdxStart: int

    constructor (b: Batch, rowOffset: nat, rowNum: nat, tokenPool: array<int>, cacheLoc: array<int>)
      requires |b.start| == |b.end|
      ensures lastRowIdx == 0
      ensures this.b == b && this.rowOffset == rowOffset && this.rowNum == rowNum
      ensures this.tokenPool == tokenPool && this.cacheLoc == cacheLoc && Counting()
    {
      this.b, this.rowOffset, this.rowNum, this.tokenPool, this.cacheLoc := b, rowOffset, rowNum, tokenPool, cacheLoc;
      lastRowIdx, cacheIdxStart := 0, 0;
    }

    // The running sum stands at the last row it was taken for.
    ghost predicate Counting()
      reads this
    {
      |b.start| == |b.end| >= lastRowIdx && cacheIdxStart == b.CacheStart(lastRowIdx)
    }

    method GetCacheIdx(rowIdx: nat)
      requires b.Valid() && lastRowIdx <= rowIdx < |b.idx| && Counting()
      modifies `lastRowIdx, `cacheIdxStart
      ensures lastRowIdx == rowIdx && Counting()
    {
      var i := lastRowIdx;
      while i < rowIdx
        invariant i <= rowIdx && cacheIdxStart == b.CacheStart(i) && lastRowIdx == old(lastRowIdx)
      {
        cacheIdxStart := cacheIdxStart + b.end[i] - b.start[i];
        i := i + 1;
      }
      lastRowIdx := rowIdx;
    }

    // MAX_STEP tokens of the request's row.
    method CopyIn(rowIdx: nat) returns (tokens: array<int>)
      requires b.Valid() && rowIdx < |b.idx| && tokenPool.Length == TableAt(b.poolSize, b.rowSize)
      ensures fresh(tokens) && tokens.Length == MAX_STEP
      ensures forall k: nat :: k < MAX_STEP ==> tokens[k] == Token(b, tokenPool[..], rowIdx, k)
    {
      b.PoolPlace(rowIdx);
      var at := b.idx[rowIdx] * b.rowSize + b.start[rowIdx];
      tokens := new int[MAX_STEP](k requires 0 <= k < MAX_STEP && at + MAX_STEP <= tokenPool.Length reads tokenPool =>
        tokenPool[at + k]);
    }

    method ComputeForTokenPoolAssign(rowIdx: nat, ghost lo: nat, ghost before: seq<int>)
      requires b.Valid() && lo <= rowIdx < |b.idx| && lastRowIdx <= rowIdx && Counting() && tokenPool != cacheLoc
      requires b.CacheStart(|b.idx|) <= cacheLoc.Length
      requires Assigned(b, cacheLoc[..], lo, rowIdx, before, tokenPool[..])
      modifies this, tokenPool
      ensures lastRowIdx == rowIdx && Counting()
      ensures Assigned(b, cacheLoc[..], lo, rowIdx + 1, before, tokenPool[..])
    {
      var tokens := CopyIn(rowIdx);
      GetCacheIdx(rowIdx);
      b.PoolPlace(rowIdx);
      TakeLocations(rowIdx, cacheIdxStart, tokens);
      OneAssigned(b, cacheLoc[..], lo, rowIdx, before, tokenPool[..], tokens[..]);
      DataCopy(tokenPool, b.idx[rowIdx] * b.rowSize + b.start[rowIdx], tokens[..]);
    }

    // Replaces the request's tokens by its locations.
    method TakeLocations(rowIdx: nat, at: int, tokens: array<int>)
      requires b.Valid() && rowIdx < |b.idx| && at == b.CacheStart(rowIdx) && b.CacheStart(|b.idx|) <= cacheLoc.Length
      requires tokens != cacheLoc && tokens != tokenPool && tokens.Length == MAX_STEP
      requires forall k: nat :: k < MAX_STEP ==> tokens[k] == Token(b, tokenPool[..], rowIdx, k)
      modifies tokens
      ensures IsRow(b, cacheLoc[..], tokenPool[..], rowIdx, tokens[..])
    {
      b.LocsInside(rowIdx);
      b.PoolPlace(rowIdx);
      var step := b.end[rowIdx] - b.start[rowIdx];
      var j := 0;
      while j < step
        invariant 0 <= j <= step
        invariant forall k: nat :: k < MAX_STEP ==>
                    tokens[k] == if k < j then Loc(b, cacheLoc[..], rowIdx, k) else Token(b, tokenPool[..], rowIdx, k)
      {
        tokens[j] := cacheLoc[at + j];
        j := j + 1;
      }
    }

    // Assign: the requests of this core, behind those of other cores from request lo on.
    method ProcessForTokenPoolAssign(ghost lo: nat, ghost before: seq<int>)
      requires b.Valid() && lo <= rowOffset && rowOffset + rowNum <= |b.idx| && tokenPool != cacheLoc
      requires lastRowIdx == 0 && Counting() && b.CacheStart(|b.idx|) <= cacheLoc.Length
      requires Assigned(b, cacheLoc[..], lo, rowOffset, before, tokenPool[..])
      modifies this, tokenPool
      ensures Assigned(b, cacheLoc[..], lo, rowOffset + rowNum, before, tokenPool[..])
    {
      var i := 0;
      while i < rowNum
        invariant i <= rowNum && (lastRowIdx == 0 || lastRowIdx < rowOffset + i) && Counting()
        invariant Assigned(b, cacheLoc[..], lo, rowOffset + i, before, tokenPool[..])
      {
        ComputeForTokenPoolAssign(rowOffset + i, lo, before);
        i := i + 1;
      }
    }

    method ComputeForCacheUpdate(rowIdx: nat, ubCacheLoc: array<int>, ghost before: seq<int>)
      requires b.Valid() && rowIdx < |b.idx| && lastRowIdx <= rowIdx && Counting() && ubCacheLoc != tokenPool
      requires tokenPool.Length == TableAt(b.poolSize, b.rowSize)
      requires Updated(b, tokenPool[..], rowIdx, before, ubCacheLoc[..])
      modifies this, ubCacheLoc
      ensures lastRowIdx == rowIdx && Counting()
      ensures Updated(b, tokenPool[..], rowIdx + 1, before, ubCacheLoc[..])
    {
      var tokens := CopyIn(rowIdx);
      GetCacheIdx(rowIdx);
      ghost var mid := ubCacheLoc[..];
      PutTokens(rowIdx, cacheIdxStart, tokens, ubCacheLoc);
      OneUpdated(b, tokenPool[..], rowIdx, before, mid, ubCacheLoc[..]);
    }

    // Puts the request's tokens in their places of the list.
    method PutTokens(rowIdx: nat, at: int, tokens: array<int>, ubCacheLoc: array<int>)
      requires b.Valid() && rowIdx < |b.idx| && at == b.CacheStart(rowIdx) && b.CacheStart(|b.idx|) <= ubCacheLoc.Length
      requires tokens != ubCacheLoc && ubCacheLoc != tokenPool && tokens.Length == MAX_STEP
      requires forall k: nat :: k < MAX_STEP ==> tokens[k] == Token(b, tokenPool[..], rowIdx, k)
      modifies ubCacheLoc
      ensures forall k: nat :: k < b.Step(rowIdx) ==> Loc(b, ubCacheLoc[..], rowIdx, k) == Token(b, tokenPool[..], rowIdx, k)
      ensures forall a :: 0 <= a < ubCacheLoc.Length && !(at <= a < at + b.Step(rowIdx)) ==> ubCacheLoc[a] == old(ubCacheLoc[a])
    {
      b.LocsInside(rowIdx);
      b.PoolPlace(rowIdx);
      var step := b.end[rowIdx] - b.start[rowIdx];
      var j := 0;
      while j < step
        invariant 0 <= j <= step
        invariant forall k: nat :: k < j ==> ubCacheLoc[at + k] == Token(b, tokenPool[..], rowIdx, k)
        invariant forall a :: 0 <= a < ubCacheLoc.Length && !(at <= a < at + j) ==> ubCacheLoc[a] == old(ubCacheLoc[a])
      {
        ubCacheLoc[at + j] := tokens[j];
        j := j + 1;
      }
    }

    // The core's copy of the list.
    method PreProcess() returns (ubCacheLoc: array<int>)
      ensures fresh(ubCacheLoc) && ubCacheLoc[..] == cacheLoc[..]
    {
      ubCacheLoc := new int[cacheLoc.Length];
      forall k | 0 <= k < cacheLoc.Length {
        ubCacheLoc[k] := cacheLoc[k];
      }
    }

    // Update: one core reads every request back into its copy of the list, and writes the list out.
    method ProcessForCacheUpdate()
      requires b.Valid() && rowOffset == 0 && rowNum == |b.idx| && tokenPool != cacheLoc
      requires lastRowIdx == 0 && Counting() && b.CacheStart(|b.idx|) <= cacheLoc.Length
      requires tokenPool.Length == TableAt(b.poolSize, b.rowSize)
      modifies this, cacheLoc
      ensures Updated(b, tokenPool[..], |b.idx|, old(cacheLoc[..]), cacheLoc[..])
    {
      if rowNum > 0 {
        var ubCacheLoc := PreProcess();
        UpdateRows(ubCacheLoc);
        DataCopy(cacheLoc, 0, ubCacheLoc[..]);
        assert cacheLoc[..] == ubCacheLoc[..];
      }
    }

    method UpdateRows(ubCacheLoc: array<int>)
      requires b.Valid() && rowNum == |b.idx| && ubCacheLoc != tokenPool
      requires lastRowIdx == 0 && Counting() && b.CacheStart(|b.idx|) <= ubCacheLoc.Length
      requires tokenPool.Length == TableAt(b.poolSize, b.rowSize)
      modifies this, ubCacheLoc
      ensures Updated(b, tokenPool[..], |b.idx|, old(ubCacheLoc[..]), ubCacheLoc[..])
    {
      var i := 0;
      while i < rowNum
        invariant i <= rowNum && (lastRowIdx == 0 || lastRowIdx < i) && Counting()
        invariant Updated(b, tokenPool[..], i, old(ubCacheLoc[..]), ubCacheLoc[..])
      {
        ComputeForCacheUpdate(i, ubCacheLoc, old(ubCacheLoc[..]));
        i := i + 1;
      }
    }
  }

  // ----- all cores -----

  // First request of a core, and their number: the first `tail` cores take one more.
  function RowOffset(batch: nat, cores: nat, core: nat): int
    requires cores > 0
  {
    batch / cores * core + Min(core, batch % cores)
  }

  function RowNum(batch: nat, cores: nat, core: nat): int
    requires cores > 0
  {
    if core < batch % cores then batch / cores + 1 else batch / cores
  }

  lemma SplitTiles(batch: nat, cores: nat, core: nat)
    requires cores > 0
    ensures RowOffset(batch, cores, 0) == 0 && RowOffset(batch, cores, cores) == batch
    ensures RowOffset(batch, cores, core + 1) == RowOffset(batch, cores, core) + RowNum(batch, cores, core)
    ensures RowNum(batch, cores, core) >= 0
  {
    var q := batch / cores;
    DivModIs(batch, cores);
    Distribute(core, 1, q);
    Commute(q, core);
    Commute(q, core + 1);
    Commute(q, cores);
  }

  lemma {:induction false} SplitGrows(batch: nat, cores: nat, core: nat, end: nat)
    requires cores > 0 && core <= end
    ensures 0 <= RowOffset(batch, cores, core) <= RowOffset(batch, cores, end)
    decreases end
  {
    SplitTiles(batch, cores, 0);
    if end > 0 {
      SplitTiles(batch, cores, end - 1);
      SplitGrows(batch, cores, if core < end then core else 0, end - 1);
    }
  }

  method Share(batch: nat, cores: nat, core: nat, ghost done: int) returns (rowOffset: nat, rowNum: nat)
    requires core < cores && done == RowOffset(batch, cores, core)
    ensures rowOffset == done && rowOffset + rowNum == RowOffset(batch, cores, core + 1) <= batch
  {
    SplitTiles(batch, cores, core);
    SplitGrows(batch, cores, core, core + 1);
    SplitGrows(batch, cores, core + 1, cores);
    rowOffset, rowNum := RowOffset(batch, cores, core), RowNum(batch, cores, core);
  }

  // Assigning on any number of cores.
  method CacheLocAssign(b: Batch, cores: nat, tokenPool: array<int>, cacheLoc: array<int>)
    requires b.Valid() && cores > 0 && tokenPool != cacheLoc
    requires tokenPool.Length == TableAt(b.poolSize, b.rowSize) && b.CacheStart(|b.idx|) <= cacheLoc.Length
    modifies tokenPool
    ensures Assigned(b, cacheLoc[..], 0, |b.idx|, old(tokenPool[..]), tokenPool[..])
  {
    var core := 0;
    var done: nat := 0;
    SplitTiles(|b.idx|, cores, 0);
    while core < cores
      invariant core <= cores && done == RowOffset(|b.idx|, cores, core) <= |b.idx|
      invariant Assigned(b, cacheLoc[..], 0, done, old(tokenPool[..]), tokenPool[..])
    {
      var rowOffset, rowNum := Share(|b.idx|, cores, core, done);
      var kernel := new CacheLocAssignKernel(b, rowOffset, rowNum, tokenPool, cacheLoc);
      kernel.ProcessForTokenPoolAssign(0, old(tokenPool[..]));
      core, done := core + 1, rowOffset + rowNum;
    }
  }

  // Reading back, on one core.
  method CacheLocUpdate(b: Batch, tokenPool: array<int>, cacheLoc: array<int>)
    requires b.Valid() && tokenPool != cacheLoc
    requires tokenPool.Length == TableAt(b.poolSize, b.rowSize) && b.CacheStart(|b.idx|) <= cacheLoc.Length
    modifies cacheLoc
    ensures Updated(b, tokenPool[..], |b.idx|, old(cacheLoc[..]), cacheLoc[..])
  {
    var kernel := new CacheLocAssignKernel(b, 0, |b.idx|, tokenPool, cacheLoc);
    kernel.ProcessForCacheUpdate();
  }
}
