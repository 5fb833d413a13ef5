/** The split of the batch over cores, the launch of all cores, and what the outputs hold afterwards. */
module BuildTreeLaunch {
  import opened Arith
  import opened Buffers
  import opened Swizzle
  import opened DraftTree
  import opened MaskLayout
  import opened BuildTreeKernel

  // The host's split: the first `bigNum` of `blockDim` cores take `big` requests, the others `small`.
  datatype Split = Split(blockDim: nat, bigNum: nat, big: nat, small: nat)

  function GetTiling(maxCores: nat, batchSize: nat): (t: Split)
    requires maxCores > 0 && batchSize > 0
    ensures t.blockDim > 0
  {
    var blockDim: nat := Min(maxCores, batchSize);
    DivModIs(batchSize, blockDim);
    var rest := batchSize % blockDim;
    Split(blockDim, if rest == 0 then blockDim else rest, CeilDiv(batchSize, blockDim), batchSize / blockDim)
  }

  // First request of a core, as the kernel computes it, and their number.
  function BsOffset(t: Split, core: nat): int {
    if core < t.bigNum then core * t.big else core * t.big - (t.big - t.small) * (core - t.bigNum)
  }

  function BsPerCore(t: Split, core: nat): nat {
    if core < t.bigNum then t.big else t.small
  }

  // In each division the big share is the small one, or one more.
  lemma Shares(maxCores: nat, batchSize: nat)
    requires maxCores > 0 && batchSize > 0
    ensures var t := GetTiling(maxCores, batchSize);
            var rest := batchSize - t.small * t.blockDim;
            && 0 <= rest < t.blockDim
            && t.bigNum == (if rest == 0 then t.blockDim else rest)
            && t.big == t.small + (if rest == 0 then 0 else 1)
  {
    var t := GetTiling(maxCores, batchSize);
    var rest := batchSize % t.blockDim;
    DivModIs(batchSize, t.blockDim);
    Distribute(t.small, 1, t.blockDim);
    if rest == 0 {
      CeilOf(batchSize, t.blockDim, t.small);
    } else {
      CeilOf(batchSize, t.blockDim, t.small + 1);
    }
  }

  lemma CeilOf(a: nat, b: nat, c: nat)
    requires a > 0 && b > 0 && c * b - b < a <= c * b
    ensures CeilDiv(a, b) == c
  {
    Distribute(c, -1, b);
    CeilDivUnique(a, b, c);
  }

  // The ranges of the cores lie one behind the other and cover the batch.
  lemma RangesTileBatch(maxCores: nat, batchSize: nat, core: nat)
    requires maxCores > 0 && batchSize > 0
    ensures var t := GetTiling(maxCores, batchSize);
            && BsOffset(t, 0) == 0 && BsOffset(t, t.blockDim) == batchSize
            && BsOffset(t, core + 1) == BsOffset(t, core) + BsPerCore(t, core)
  {
    var t := GetTiling(maxCores, batchSize);
    Shares(maxCores, batchSize);
    Distribute(core, 1, t.big);
    Distribute(t.small, 1, t.blockDim);
    Commute(t.blockDim, t.big);
    Commute(t.blockDim, t.small);
  }

  lemma {:induction false} RangeInside(maxCores: nat, batchSize: nat, core: nat, end: nat)
    requires maxCores > 0 && batchSize > 0
    requires core <= end
    ensures var t := GetTiling(maxCores, batchSize); 0 <= BsOffset(t, core) <= BsOffset(t, end)
    decreases end
  {
    RangesTileBatch(maxCores, batchSize, 0);
    if end > 0 {
      RangesTileBatch(maxCores, batchSize, end - 1);
      if core < end {
        RangeInside(maxCores, batchSize, core, end - 1);
      } else {
        RangeInside(maxCores, batchSize, 0, end - 1);
      }
    }
  }

  // The first requests of the cores.
  ghost predicate AreStarts(maxCores: nat, batchSize: nat, starts: seq<nat>)
    requires maxCores > 0 && batchSize > 0
  {
    var t := GetTiling(maxCores, batchSize);
    |starts| == t.blockDim + 1 && forall c :: 0 <= c <= t.blockDim ==> starts[c] == BsOffset(t, c)
  }

  lemma Starts(maxCores: nat, batchSize: nat) returns (starts: seq<nat>)
    requires maxCores > 0 && batchSize > 0
    ensures AreStarts(maxCores, batchSize, starts)
    ensures |starts| > 1 && starts[0] == 0 && starts[|starts| - 1] == batchSize
    ensures forall c :: 0 <= c < |starts| ==> starts[c] <= batchSize
  {
    var t := GetTiling(maxCores, batchSize);
    forall c | 0 <= c <= t.blockDim
      ensures 0 <= BsOffset(t, c) <= BsOffset(t, t.blockDim)
    {
      RangeInside(maxCores, batchSize, c, t.blockDim);
    }
    RangesTileBatch(maxCores, batchSize, 0);
    starts := seq(t.blockDim + 1, c requires 0 <= c <= t.blockDim => BsOffset(t, c));
  }

  // Where a core finds its requests.
  method CoreShare(maxCores: nat, batchSize: nat, core: nat, ghost starts: seq<nat>) returns (offset: nat, count: nat)
    requires maxCores > 0 && batchSize > 0 && AreStarts(maxCores, batchSize, starts) && core + 1 < |starts|
    ensures offset == starts[core] && offset + count == starts[core + 1]
  {
    var t := GetTiling(maxCores, batchSize);
    RangesTileBatch(maxCores, batchSize, core);
    offset, count := BsOffset(t, core), BsPerCore(t, core);
  }

  // All cores of the launch.
  method Launch(batch: Batch, past: int, maxCores: nat, o: Outputs, ghost f: Forest)
    requires batch.Valid() && f == batch.Trees() && maxCores > 0 && |batch.seqLens| > 0
    requires o.Distinct() && o.Contents().Fits(f)
    modifies o.treeMask, o.positions, o.retriveIndex, o.next, o.sibling
    ensures o.Contents() == AfterRequests(f, old(o.Contents()), 0, |f.lens|)
  {
    var batchSize := |batch.seqLens|;
    ghost var starts := Starts(maxCores, batchSize);
    var blockDim := GetTiling(maxCores, batchSize).blockDim;
    var core := 0;
    while core < blockDim
      invariant core <= blockDim == |starts| - 1
      invariant o.Contents() == AfterRequests(f, old(o.Contents()), 0, starts[core])
    {
      var offset, count := CoreShare(maxCores, batchSize, core, starts);
      var kernel := new KernalBuildTree(batch, past, offset, count, o);
      kernel.Process(f, old(o.Contents()), 0);
      core := core + 1;
    }
  }

  // ----- what the outputs hold -----

  lemma {:induction false} MaskOfRequests(f: Forest, s: Out, lo: nat, hi: nat)
    requires f.Ok() && lo <= hi <= |f.lens| && s.Fits(f)
    ensures AllFit(|s.mask|, MaskWrites(f, lo, hi))
    ensures AfterRequests(f, s, lo, hi).mask == PutAll(s.mask, MaskWrites(f, lo, hi))
    decreases hi
  {
    MasksFit(f, lo, hi, |s.mask|);
    if lo < hi {
      MaskOfRequests(f, s, lo, hi - 1);
      MasksFit(f, lo, hi - 1, |s.mask|);
      MaskStep(f, s, lo, hi - 1, MaskWrites(f, lo, hi - 1));
    }
  }

  lemma MaskStep(f: Forest, s: Out, lo: nat, b: nat, ws: seq<Write<bool>>)
    requires f.Ok() && lo <= b < |f.lens| && s.Fits(f) && AllFit(|s.mask|, ws)
    requires AfterRequests(f, s, lo, b).mask == PutAll(s.mask, ws)
    ensures AllFit(|s.mask|, ws + RequestWrites(f, b, f.d))
    ensures AfterRequests(f, s, lo, b + 1).mask == PutAll(s.mask, ws + RequestWrites(f, b, f.d))
  {
    OneRequestMore(f, s, lo, b);
    MaskOfRequest(f, AfterRequests(f, s, lo, b), b, s.mask, ws);
  }

  lemma MaskOfRequest(f: Forest, p: Out, b: nat, m: seq<bool>, ws: seq<Write<bool>>)
    requires f.Ok() && b < |f.lens| && p.Fits(f) && AllFit(|m|, ws) && p.mask == PutAll(m, ws)
    ensures AllFit(|m|, ws + RequestWrites(f, b, f.d))
    ensures AfterRequest(f, p, b).mask == PutAll(m, ws + RequestWrites(f, b, f.d))
  {
    RequestFits(f, b, |m|);
    PutAllJoins(m, ws, RequestWrites(f, b, f.d));
  }

  // The four tables of node i of request b.
  ghost predicate NodeHeld(f: Forest, s: Out, b: nat, i: nat)
    requires f.Ok() && b < |f.lens| && i < f.d && s.Fits(f)
  {
    RowFits(b, |f.lens|, f.d);
    var k := TableAt(b, f.d) + i;
    && s.positions[k] == f.lens[b] + Depth(f.pars[b], i)
    && s.index[k] == k
    && s.next[k] == FirstChild(f.pars[b], i, 1)
    && s.sibling[k] == SiblingOf(f.pars[b], i)
  }

  // Every request's rows stand: later requests write elsewhere.
  lemma {:induction false} NodesHeld(f: Forest, s: Out, lo: nat, hi: nat, b: nat, i: nat)
    requires f.Ok() && lo <= b < hi <= |f.lens| && i < f.d && s.Fits(f)
    ensures AfterRequests(f, s, lo, hi).Fits(f) && NodeHeld(f, AfterRequests(f, s, lo, hi), b, i)
    decreases hi
  {
    if b == hi - 1 {
      LastHeld(f, s, lo, b, i);
    } else {
      NodesHeld(f, s, lo, hi - 1, b, i);
      StillHeld(f, s, lo, hi - 1, b, i);
    }
  }

  lemma LastHeld(f: Forest, s: Out, lo: nat, b: nat, i: nat)
    requires f.Ok() && lo <= b < |f.lens| && i < f.d && s.Fits(f)
    ensures AfterRequests(f, s, lo, b + 1).Fits(f) && NodeHeld(f, AfterRequests(f, s, lo, b + 1), b, i)
  {
    OneRequestMore(f, s, lo, b);
    OwnRow(f, AfterRequests(f, s, lo, b), b, i);
  }

  lemma StillHeld(f: Forest, s: Out, lo: nat, c: nat, b: nat, i: nat)
    requires f.Ok() && lo <= b < c < |f.lens| && i < f.d && s.Fits(f)
    requires AfterRequests(f, s, lo, c).Fits(f) && NodeHeld(f, AfterRequests(f, s, lo, c), b, i)
    ensures AfterRequests(f, s, lo, c + 1).Fits(f) && NodeHeld(f, AfterRequests(f, s, lo, c + 1), b, i)
  {
    OneRequestMore(f, s, lo, c);
    OtherRow(f, AfterRequests(f, s, lo, c), c, b, i);
  }

  lemma OwnRow(f: Forest, s: Out, b: nat, i: nat)
    requires f.Ok() && b < |f.lens| && i < f.d && s.Fits(f)
    ensures NodeHeld(f, AfterRequest(f, s, b), b, i)
  {
    RowFits(b, |f.lens|, f.d);
  }

  lemma OtherRow(f: Forest, s: Out, c: nat, b: nat, i: nat)
    requires f.Ok() && b < c < |f.lens| && i < f.d && s.Fits(f) && NodeHeld(f, s, b, i)
    ensures NodeHeld(f, AfterRequest(f, s, c), b, i)
  {
    RowFits(c, |f.lens|, f.d);
    RowFits(b, c, f.d);
  }

  // After the launch the row of every node marks exactly its ancestors and itself, and the places before
  // the row, for the cached tokens, are untouched.
  lemma MaskHeld(f: Forest, s: Out, b: nat, tid: nat, a: nat)
    requires f.Ok() && b < |f.lens| && tid < f.d && a < f.d && s.Fits(f)
    ensures var mask := AfterRequests(f, s, 0, |f.lens|).mask;
            MaskAt(f, b, tid) + a < |mask| && mask[MaskAt(f, b, tid) + a] == IsAncestor(f.pars[b], a, tid)
  {
    MaskOfRequests(f, s, 0, |f.lens|);
    MaskIsAncestors(f, s.mask, b, tid, a);
  }

  lemma CachedPlacesStay(f: Forest, s: Out, b: nat, tid: nat, k: nat)
    requires f.Ok() && b < |f.lens| && tid < f.d && s.Fits(f)
    requires MaskAt(f, b, tid) - f.lens[b] <= k < MaskAt(f, b, tid)
    ensures var mask := AfterRequests(f, s, 0, |f.lens|).mask;
            k < |mask| == |s.mask| && mask[k] == s.mask[k]
  {
    MaskOfRequests(f, s, 0, |f.lens|);
    MaskPrefixStays(f, s.mask, b, tid, k);
  }

  // The tree that a launch leaves, in terms of the batch's own arrays. The root of request b stands right behind its
  // cached tokens and sees itself.
  lemma RootHeld(f: Forest, s: Out, b: nat, a: nat)
    requires f.Ok() && b < |f.lens| && a < f.d && s.Fits(f)
    ensures var o := AfterRequests(f, s, 0, |f.lens|);
            && 0 <= b * f.d < |o.positions| && o.positions[b * f.d] == f.lens[b]
            && MaskAt(f, b, 0) + a < |o.mask| && o.mask[MaskAt(f, b, 0) + a] == (a == 0)
  {
    NodesHeld(f, s, 0, |f.lens|, b, 0);
    RowFits(b, |f.lens|, f.d);
    MaskHeld(f, s, b, 0, a);
  }

  // Candidate c of group t is node i: the node hangs from the root exactly when c is below topk, and otherwise from the
  // node of the candidate that group t was expanded from. It stands one place behind its parent, and sees what its
  // parent sees and itself.
  lemma NodeBelowParent(batch: Batch, f: Forest, s: Out, b: nat, i: nat, t: nat, at: int, parentAt: int, a: nat)
    returns (p: nat)
    requires batch.Valid() && f == batch.Trees() && s.Fits(f) && b < |batch.seqLens| && 0 < i < batch.d && a < batch.d
    requires at == b * (batch.d - 1) && parentAt == b * (batch.topk * (batch.depth - 1) + 1)
    requires 0 <= at + i - 1 < |batch.selected|
    requires t * batch.topk <= batch.selected[at + i - 1] < t * batch.topk + batch.topk
    ensures p < i && (p == 0 <==> batch.selected[at + i - 1] < batch.topk)
    ensures p > 0 ==> 0 <= at + p - 1 < |batch.selected| && 0 <= parentAt + t < |batch.parents|
                      && batch.selected[at + p - 1] == batch.parents[parentAt + t]
    ensures var o := AfterRequests(f, s, 0, |f.lens|);
            && 0 <= b * batch.d && b * batch.d + i < |o.positions|
            && o.positions[b * batch.d + i] == o.positions[b * batch.d + p] + 1
            && MaskAt(f, b, i) + a < |o.mask| && MaskAt(f, b, p) + a < |o.mask|
            && o.mask[MaskAt(f, b, i) + a] == (a == i || o.mask[MaskAt(f, b, p) + a])
  {
    p := ParentInBatch(batch, b, i, t, at, parentAt);
    BehindParent(f, s, b, i, p);
    SeesParent(f, s, b, i, p, a);
  }

  lemma BehindParent(f: Forest, s: Out, b: nat, i: nat, p: nat)
    requires f.Ok() && b < |f.lens| && s.Fits(f) && 0 < i < f.d && p == f.pars[b][i]
    ensures var o := AfterRequests(f, s, 0, |f.lens|);
            && 0 <= b * f.d && b * f.d + i < |o.positions| && p < i
            && o.positions[b * f.d + i] == o.positions[b * f.d + p] + 1
  {
    PositionHeld(f, s, b, i);
    PositionHeld(f, s, b, p);
    assert Rooted(f.pars[b]);
  }

  lemma PositionHeld(f: Forest, s: Out, b: nat, i: nat)
    requires f.Ok() && b < |f.lens| && i < f.d && s.Fits(f)
    ensures var positions := AfterRequests(f, s, 0, |f.lens|).positions;
            0 <= b * f.d && b * f.d + i < |positions| && positions[b * f.d + i] == f.lens[b] + Depth(f.pars[b], i)
  {
    RowFits(b, |f.lens|, f.d);
    NodesHeld(f, s, 0, |f.lens|, b, i);
  }

  lemma SeesParent(f: Forest, s: Out, b: nat, i: nat, p: nat, a: nat)
    requires f.Ok() && b < |f.lens| && s.Fits(f) && 0 < i < f.d && p == f.pars[b][i] && a < f.d
    ensures var mask := AfterRequests(f, s, 0, |f.lens|).mask;
            && MaskAt(f, b, i) + a < |mask| && MaskAt(f, b, p) + a < |mask|
            && mask[MaskAt(f, b, i) + a] == (a == i || mask[MaskAt(f, b, p) + a])
  {
    MaskHeld(f, s, b, i, a);
    MaskHeld(f, s, b, p, a);
  }
}
