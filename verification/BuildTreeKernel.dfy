/** The build-tree kernel over a batch: its split over cores, and what each output buffer holds. */
module BuildTreeKernel {
  import opened Arith
  import opened Buffers
  import opened DraftTree
  import opened BuildTree
  import opened MaskLayout

  // The batch: the rows of all requests lie one behind the other.
  datatype Batch = Batch(topk: nat, depth: nat, d: nat, seqLens: seq<nat>, selected: seq<int>, parents: seq<int>)
  {
    function Stride(): int {
      topk * (depth - 1) + 1
    }

    ghost predicate Sized() {
      && topk > 0 && depth > 0 && d > 0 && Stride() > 0
      && |selected| == |seqLens| * (d - 1)
      && |parents| == |seqLens| * Stride()
    }

    lemma RowInside(b: nat, n: nat, stride: nat)
      requires b < n
      ensures 0 <= b * stride && b * stride + stride <= n * stride
    {
      MulOrder(b, n, stride);
      MulOrder(0, b, stride);
    }

    function DraftOf(b: nat): (g: Draft)
      requires Sized() && b < |seqLens|
      ensures g.topk == topk && g.d == d && |g.selected| == d - 1
    {
      RowInside(b, |seqLens|, d - 1);
      RowInside(b, |seqLens|, Stride());
      Draft(topk, d, selected[b * (d - 1)..b * (d - 1) + (d - 1)], parents[b * Stride()..b * Stride() + Stride()])
    }

    ghost predicate Valid() {
      Sized() && forall b :: 0 <= b < |seqLens| ==> DraftOf(b).WellFormed()
    }

    // The parents of the nodes of request b.
    function ParOf(b: nat): (par: seq<nat>)
      requires Valid() && b < |seqLens|
      ensures Rooted(par) && |par| == d
    {
      DraftOf(b).ParentsComeFirst();
      DraftOf(b).Parents()
    }

    // The trees of the batch.
    ghost function Trees(): (f: Forest)
      requires Valid()
      ensures f.Ok() && f.d == d && f.lens == seqLens
      ensures forall b :: 0 <= b < |seqLens| ==> f.pars[b] == ParOf(b)
    {
      Forest(d, seqLens, seq(|seqLens|, b requires 0 <= b < |seqLens| => ParOf(b)))
    }
  }

  // Whose child node i of request b is, in terms of the batch's own arrays: request b has its candidates from
  // place b * (d - 1) on, and its table of groups from place b * (topk * (depth - 1) + 1) on.
  lemma ParentInBatch(batch: Batch, b: nat, i: nat, t: nat, at: int, parentAt: int) returns (p: nat)
    requires batch.Valid() && b < |batch.seqLens| && 0 < i < batch.d
    requires at == b * (batch.d - 1) && parentAt == b * (batch.topk * (batch.depth - 1) + 1)
    requires 0 <= at + i - 1 < |batch.selected|
    requires t * batch.topk <= batch.selected[at + i - 1] < t * batch.topk + batch.topk
    ensures p == batch.Trees().pars[b][i] && p < i
    ensures p == 0 <==> batch.selected[at + i - 1] < batch.topk
    ensures p > 0 ==> 0 <= at + p - 1 < |batch.selected| && 0 <= parentAt + t < |batch.parents|
                      && batch.selected[at + p - 1] == batch.parents[parentAt + t]
  {
    DraftRows(batch, b, at, parentAt);
    p := ParentInRows(batch.DraftOf(b), i, t, batch.selected, at, batch.parents, parentAt);
  }

  lemma DraftRows(batch: Batch, b: nat, at: int, parentAt: int)
    requires batch.Valid() && b < |batch.seqLens|
    requires at == b * (batch.d - 1) && parentAt == b * (batch.topk * (batch.depth - 1) + 1)
    ensures batch.DraftOf(b).WellFormed() && batch.Trees().pars[b] == batch.DraftOf(b).Parents()
    ensures var g := batch.DraftOf(b);
            && 0 <= at && at + batch.d - 1 <= |batch.selected| && g.selected == batch.selected[at..at + batch.d - 1]
            && 0 <= parentAt && parentAt + |g.parents| <= |batch.parents|
            && g.parents == batch.parents[parentAt..parentAt + |g.parents|]
  {
    batch.RowInside(b, |batch.seqLens|, batch.d - 1);
    batch.RowInside(b, |batch.seqLens|, batch.Stride());
  }

  lemma ParentInRows(g: Draft, i: nat, t: nat, selected: seq<int>, at: nat, parents: seq<int>, parentAt: nat)
    returns (p: nat)
    requires g.WellFormed() && 0 < i < g.d && at + g.d - 1 <= |selected| && parentAt + |g.parents| <= |parents|
    requires g.selected == selected[at..at + g.d - 1] && g.parents == parents[parentAt..parentAt + |g.parents|]
    requires t * g.topk <= selected[at + i - 1] < t * g.topk + g.topk
    ensures p == g.Parents()[i] && p < i
    ensures p == 0 <==> selected[at + i - 1] < g.topk
    ensures p > 0 ==> 0 <= at + p - 1 < |selected| && 0 <= parentAt + t < |parents|
                      && selected[at + p - 1] == parents[parentAt + t]
  {
    p := g.Parents()[i];
    assert g.selected[i - 1] == selected[at + i - 1];
    g.ParentIs(i, t);
    if p > 0 {
      assert g.selected[p - 1] == selected[at + p - 1] && g.parents[t] == parents[parentAt + t];
    }
  }

  // ----- rows of the outputs -----

  function PositionRow(par: seq<nat>, seqLen: nat): (r: seq<int>)
    requires Rooted(par)
    ensures |r| == |par|
  {
    seq(|par|, i requires 0 <= i < |par| => seqLen + Depth(par, i))
  }

  function IndexRow(d: nat, b: nat): (r: seq<int>)
    ensures |r| == d
  {
    seq(d, i => b * d + i)
  }

  function NextRow(par: seq<nat>): (r: seq<int>)
    ensures |r| == |par|
  {
    seq(|par|, p requires 0 <= p < |par| => FirstChild(par, p, 1))
  }

  function SiblingRow(par: seq<nat>): (r: seq<int>)
    ensures |r| == |par|
  {
    seq(|par|, i requires 0 <= i < |par| => SiblingOf(par, i))
  }

  ghost predicate PositionsUpTo(par: seq<nat>, seqLen: nat, n: nat, positions: seq<int>)
    requires Rooted(par)
  {
    |positions| == |par| && forall i :: 0 <= i < n && i < |par| ==> positions[i] == seqLen + Depth(par, i)
  }

  lemma PositionsDone(par: seq<nat>, seqLen: nat, positions: seq<int>)
    requires Rooted(par) && PositionsUpTo(par, seqLen, |par|, positions)
    ensures positions == PositionRow(par, seqLen)
  {
  }

  lemma LinkedIsRows(par: seq<nat>, next: seq<int>, sibling: seq<int>)
    ensures Linked(par, next, sibling) <==> next == NextRow(par) && sibling == SiblingRow(par)
  {
  }

  // What the output buffers hold.
  datatype Out = Out(mask: seq<bool>, positions: seq<int>, index: seq<int>, next: seq<int>, sibling: seq<int>)
  {
    // Large enough for a batch.
    ghost predicate Fits(f: Forest) {
      && |mask| >= f.SeqTree(|f.lens|)
      && |positions| == |index| == |next| == |sibling| == TableAt(|f.lens|, f.d)
    }
  }

  lemma RowFits(b: nat, bs: nat, d: nat)
    requires b < bs
    ensures TableAt(b, d) + d <= TableAt(bs, d)
  {
    MulOrder(b, bs, d);
  }

  // The outputs after request b.
  ghost function AfterRequest(f: Forest, s: Out, b: nat): (r: Out)
    requires f.Ok() && b < |f.lens| && s.Fits(f)
    ensures r.Fits(f)
  {
    RowFits(b, |f.lens|, f.d);
    RequestFits(f, b, |s.mask|);
    Out(PutAll(s.mask, RequestWrites(f, b, f.d)),
        Patch(s.positions, TableAt(b, f.d), PositionRow(f.pars[b], f.lens[b])),
        Patch(s.index, TableAt(b, f.d), IndexRow(f.d, b)),
        Patch(s.next, TableAt(b, f.d), NextRow(f.pars[b])),
        Patch(s.sibling, TableAt(b, f.d), SiblingRow(f.pars[b])))
  }

  lemma RequestFits(f: Forest, b: nat, size: nat)
    requires f.Ok() && b < |f.lens| && size >= f.SeqTree(|f.lens|)
    ensures AllFit(size, RequestWrites(f, b, f.d))
  {
    RequestInOrder(f, b);
    SeqTreeGrows(f, b + 1, |f.lens|);
  }

  ghost function RequestStep(f: Forest): (Out, nat) -> Out {
    (s: Out, b: nat) => if f.Ok() && b < |f.lens| && s.Fits(f) then AfterRequest(f, s, b) else s
  }

  // The outputs after requests lo .. hi.
  ghost function AfterRequests(f: Forest, s: Out, lo: nat, hi: nat): Out {
    Iterate(RequestStep(f), s, lo, hi)
  }

  lemma {:induction false} FitsStays(f: Forest, s: Out, lo: nat, hi: nat)
    requires f.Ok() && hi <= |f.lens| && s.Fits(f)
    ensures AfterRequests(f, s, lo, hi).Fits(f)
    decreases hi
  {
    if lo < hi {
      FitsStays(f, s, lo, hi - 1);
    }
  }

  lemma OneRequestMore(f: Forest, s: Out, lo: nat, b: nat)
    requires f.Ok() && lo <= b < |f.lens| && s.Fits(f)
    ensures AfterRequests(f, s, lo, b).Fits(f)
    ensures AfterRequests(f, s, lo, b + 1) == AfterRequest(f, AfterRequests(f, s, lo, b), b)
  {
    FitsStays(f, s, lo, b);
  }

  // The mask buffer after the first n nodes of request b.
  ghost predicate MasksDone(f: Forest, m: seq<bool>, b: nat, n: nat, now: seq<bool>)
    requires f.Ok() && b < |f.lens| && n <= f.d
  {
    && |m| >= f.SeqTree(|f.lens|) && AllFit(|m|, RequestWrites(f, b, n))
    && now == PutAll(m, RequestWrites(f, b, n))
  }

  lemma OneMaskMore(f: Forest, m: seq<bool>, b: nat, tid: nat, now: seq<bool>)
    requires f.Ok() && b < |f.lens| && tid < f.d && MasksDone(f, m, b, tid, now)
    requires MaskAt(f, b, tid) + f.d <= |now|
    ensures MasksDone(f, m, b, tid + 1, Patch(now, MaskAt(f, b, tid), MaskRow(f.pars[b], tid)))
  {
    var w := Write(MaskAt(f, b, tid), MaskRow(f.pars[b], tid));
    PutOne(m, RequestWrites(f, b, tid), w);
    assert RequestWrites(f, b, tid + 1) == RequestWrites(f, b, tid) + [w];
  }

  // ----- the kernel -----

  // The output buffers, shared by all cores.
  class Outputs {
    const treeMask: array<bool>
    const positions: array<int>
    const retriveIndex: array<int>
    const next: array<int>
    const sibling: array<int>

    constructor (treeMask: array<bool>, positions: array<int>, retriveIndex: array<int>, next: array<int>, sibling: array<int>)
      ensures this.treeMask == treeMask && this.positions == positions && this.retriveIndex == retriveIndex
      ensures this.next == next && this.sibling == sibling
    {
      this.treeMask, this.positions, this.retriveIndex := treeMask, positions, retriveIndex;
      this.next, this.sibling := next, sibling;
    }

    ghost predicate Distinct() {
      && positions != retriveIndex && positions != next && positions != sibling
      && retriveIndex != next && retriveIndex != sibling && next != sibling
    }

    ghost function Contents(): Out
      reads treeMask, positions, retriveIndex, next, sibling
    {
      Out(treeMask[..], positions[..], retriveIndex[..], next[..], sibling[..])
    }
  }

  class KernalBuildTree {
    const batch: Batch
    const past: int            // what the kernel would read behind the last row of the selected candidates
    const bsOffset: nat
    const bsPerCore: nat
    const o: Outputs

    constructor (batch: Batch, past: int, bsOffset: nat, bsPerCore: nat, o: Outputs)
      ensures this.batch == batch && this.bsOffset == bsOffset && this.bsPerCore == bsPerCore && this.o == o
    {
      this.batch, this.past, this.bsOffset, this.bsPerCore, this.o := batch, past, bsOffset, bsPerCore, o;
    }

    // Where the mask of request bs starts.
    method SeqTreeIdx(bs: nat, ghost f: Forest) returns (seqTreeIdx: nat)
      requires bs < |batch.seqLens| && f.lens == batch.seqLens && f.d == batch.d
      ensures seqTreeIdx == f.SeqTree(bs)
    {
      seqTreeIdx := TableAt(TableAt(batch.d, batch.d), bs);
      var i := 0;
      while i < bs
        invariant i <= bs && seqTreeIdx == TableAt(TableAt(f.d, f.d), bs) + f.LenSum(i)
      {
        seqTreeIdx := seqTreeIdx + TableAt(batch.seqLens[i], batch.d);
        i := i + 1;
      }
    }

    // One node's mask row, and its position; node 0 also makes the links of the request.
    method Compute(g: Draft, beyond: int, bs: nat, tid: nat, seqLen: nat, ub: Local, ghost par: seq<nat>)
      returns (mask: array<bool>)
      requires g.Shaped() && par == g.Parents() && Rooted(par) && tid < |par| && ub.Sized(|par|)
      requires tid == 0 ==> ub.Cleared()
      modifies ub.positions, ub.retriveIndex, ub.next, ub.sibling
      ensures fresh(mask) && mask[..] == MaskRow(par, tid)
      ensures ub.positions[..] == old(ub.positions[..])[tid := seqLen + Depth(par, tid)]
      ensures if tid == 0 then ub.Linked(par, bs) else ub.Unchanged()
    {
      mask := new bool[|g.selected| + 1](a => a == 0);
      if tid == 0 {
        OnlyRootMarked(par, 0, mask[..]);
        AllMarked(par, 0, mask[..]);
        ub.positions[0] := seqLen;
        LinkTokens(g, beyond, TableAt(bs, g.d), ub.retriveIndex, ub.next, ub.sibling, par);
        LinkedIsRows(par, ub.next[..], ub.sibling[..]);
      } else {
        var position := Ancestors(g, tid, mask, par);
        ub.positions[tid] := position + seqLen;
      }
    }

    // The row of request bs in the inputs, and the value behind it.
    method ReadDraft(bs: nat) returns (g: Draft, beyond: int)
      requires batch.Valid() && bs < |batch.seqLens|
      ensures g == batch.DraftOf(bs)
    {
      batch.RowInside(bs, |batch.seqLens|, batch.d - 1);
      batch.RowInside(bs, |batch.seqLens|, batch.Stride());
      var at, width := bs * (batch.d - 1), batch.d - 1;
      var parentAt, stride := bs * (batch.topk * (batch.depth - 1) + 1), batch.topk * (batch.depth - 1) + 1;
      g := Draft(batch.topk, batch.d, batch.selected[at..at + width], batch.parents[parentAt..parentAt + stride]);
      var end := (bs + 1) * (batch.d - 1);
      beyond := if 0 <= end < |batch.selected| then batch.selected[end] else past;
    }

    // The mask row of one node.
    method CopyMask(ghost f: Forest, bs: nat, tid: nat, seqTreeIdx: nat, mask: array<bool>)
      requires f.lens == batch.seqLens && f.d == batch.d
      requires bs < |f.lens| && tid < f.d == mask.Length && seqTreeIdx == f.SeqTree(bs)
      requires o.treeMask.Length >= f.SeqTree(|f.lens|) && mask != o.treeMask
      modifies o.treeMask
      ensures MaskAt(f, bs, tid) + f.d <= |old(o.treeMask[..])|
      ensures o.treeMask[..] == Patch(old(o.treeMask[..]), MaskAt(f, bs, tid), mask[..])
    {
      var seqLen := batch.seqLens[bs];
      var tokenTreeIdx := seqTreeIdx + TableAt(seqLen + batch.d, tid) + seqLen;
      PlaceInside(f, bs, tid);
      DataCopy(o.treeMask, tokenTreeIdx, mask[..]);
    }

    // Node `tid` of request bs.
    method Node(g: Draft, beyond: int, bs: nat, tid: nat, seqTreeIdx: nat, ub: Local,
                ghost f: Forest, ghost par: seq<nat>, ghost m: seq<bool>)
      requires f.lens == batch.seqLens && f.d == batch.d && f.Ok() && bs < |f.lens| && par == f.pars[bs] && tid < f.d
      requires g.Shaped() && par == g.Parents() && ub.Sized(|par|) && (if tid == 0 then ub.Cleared() else ub.Linked(par, bs))
      requires seqTreeIdx == f.SeqTree(bs) && PositionsUpTo(par, f.lens[bs], tid, ub.positions[..])
      requires MasksDone(f, m, bs, tid, o.treeMask[..])
      modifies o.treeMask, ub.positions, ub.retriveIndex, ub.next, ub.sibling
      ensures MasksDone(f, m, bs, tid + 1, o.treeMask[..])
      ensures ub.Linked(par, bs) && PositionsUpTo(par, f.lens[bs], tid + 1, ub.positions[..])
    {
      var mask := Compute(g, beyond, bs, tid, batch.seqLens[bs], ub, par);
      ghost var before := o.treeMask[..];
      CopyMask(f, bs, tid, seqTreeIdx, mask);
      OneMaskMore(f, m, bs, tid, before);
    }

    // All nodes of one request: the masks go out one by one, the rest collects in the core's own buffers.
    method Nodes(g: Draft, beyond: int, bs: nat, ub: Local, ghost f: Forest, ghost par: seq<nat>)
      requires f.lens == batch.seqLens && f.d == batch.d && f.Ok() && bs < |f.lens| && par == f.pars[bs]
      requires g.Shaped() && par == g.Parents() && ub.Sized(|par|) && ub.Cleared()
      requires o.treeMask.Length >= f.SeqTree(|f.lens|)
      modifies o.treeMask, ub.positions, ub.retriveIndex, ub.next, ub.sibling
      ensures MasksDone(f, old(o.treeMask[..]), bs, f.d, o.treeMask[..])
      ensures ub.Linked(par, bs) && PositionsUpTo(par, f.lens[bs], f.d, ub.positions[..])
    {
      var seqTreeIdx := SeqTreeIdx(bs, f);
      var tid := 0;
      while tid < batch.d
        invariant tid <= batch.d
        invariant MasksDone(f, old(o.treeMask[..]), bs, tid, o.treeMask[..])
        invariant if tid == 0 then ub.Cleared() else ub.Linked(par, bs)
        invariant PositionsUpTo(par, f.lens[bs], tid, ub.positions[..])
      {
        Node(g, beyond, bs, tid, seqTreeIdx, ub, f, par, old(o.treeMask[..]));
        tid := tid + 1;
      }
    }

    // One request.
    method Request(bs: nat, ghost f: Forest)
      requires batch.Valid() && f == batch.Trees() && bs < |f.lens| && o.Distinct() && o.Contents().Fits(f)
      modifies o.treeMask, o.positions, o.retriveIndex, o.next, o.sibling
      ensures o.Contents() == AfterRequest(f, old(o.Contents()), bs)
    {
      var g, beyond := ReadDraft(bs);
      BuildRequest(g, beyond, bs, f);
    }

    method BuildRequest(g: Draft, beyond: int, bs: nat, ghost f: Forest)
      requires f.lens == batch.seqLens && f.d == batch.d && f.Ok() && bs < |f.lens|
      requires g.Shaped() && f.pars[bs] == g.Parents() && o.Distinct() && o.Contents().Fits(f)
      modifies o.treeMask, o.positions, o.retriveIndex, o.next, o.sibling
      ensures o.Contents() == AfterRequest(f, old(o.Contents()), bs)
    {
      var ub := new Local(batch.d);
      Nodes(g, beyond, bs, ub, f, f.pars[bs]);
      PositionsDone(f.pars[bs], f.lens[bs], ub.positions[..]);
      CopyOut(bs, ub, f);
    }

    method CopyOut(bs: nat, ub: Local, ghost f: Forest)
      requires f.lens == batch.seqLens && f.d == batch.d && f.Ok() && bs < |f.lens| && ub.Sized(f.d)
      requires o.Distinct() && o.Contents().Fits(f)
      requires ub.positions != o.positions && ub.positions != o.retriveIndex && ub.positions != o.next && ub.positions != o.sibling
      requires ub.retriveIndex != o.positions && ub.retriveIndex != o.retriveIndex && ub.retriveIndex != o.next && ub.retriveIndex != o.sibling
      requires ub.next != o.positions && ub.next != o.retriveIndex && ub.next != o.next && ub.next != o.sibling
      requires ub.sibling != o.positions && ub.sibling != o.retriveIndex && ub.sibling != o.next && ub.sibling != o.sibling
      modifies o.positions, o.retriveIndex, o.next, o.sibling
      ensures TableAt(bs, f.d) + f.d <= |old(o.positions[..])|
      ensures o.positions[..] == Patch(old(o.positions[..]), TableAt(bs, f.d), ub.positions[..])
      ensures o.retriveIndex[..] == Patch(old(o.retriveIndex[..]), TableAt(bs, f.d), ub.retriveIndex[..])
      ensures o.next[..] == Patch(old(o.next[..]), TableAt(bs, f.d), ub.next[..])
      ensures o.sibling[..] == Patch(old(o.sibling[..]), TableAt(bs, f.d), ub.sibling[..])
    {
      RowFits(bs, |f.lens|, f.d);
      var offset := TableAt(bs, batch.d);
      DataCopy(o.positions, offset, ub.positions[..]);
      DataCopy(o.retriveIndex, offset, ub.retriveIndex[..]);
      DataCopy(o.next, offset, ub.next[..]);
      DataCopy(o.sibling, offset, ub.sibling[..]);
    }

    method NextRequest(bs: nat, ghost f: Forest, ghost s: Out, ghost lo: nat)
      requires batch.Valid() && f == batch.Trees() && lo <= bs < |f.lens| && o.Distinct() && s.Fits(f)
      requires o.Contents() == AfterRequests(f, s, lo, bs)
      modifies o.treeMask, o.positions, o.retriveIndex, o.next, o.sibling
      ensures o.Contents() == AfterRequests(f, s, lo, bs + 1)
    {
      OneRequestMore(f, s, lo, bs);
      Request(bs, f);
    }

    // The requests of this core, behind those of other cores from request lo on.
    method Process(ghost f: Forest, ghost s: Out, ghost lo: nat)
      requires batch.Valid() && f == batch.Trees() && lo <= bsOffset && bsOffset + bsPerCore <= |f.lens|
      requires o.Distinct() && s.Fits(f) && o.Contents() == AfterRequests(f, s, lo, bsOffset)
      modifies o.treeMask, o.positions, o.retriveIndex, o.next, o.sibling
      ensures o.Contents() == AfterRequests(f, s, lo, bsOffset + bsPerCore)
    {
      var bid := 0;
      while bid < bsPerCore
        invariant bid <= bsPerCore
        invariant o.Contents() == AfterRequests(f, s, lo, bsOffset + bid)
      {
        NextRequest(bsOffset + bid, f, s, lo);
        bid := bid + 1;
      }
    }
  }

  // The buffers of one request in the vector core's own memory.
  class Local {
    const positions: array<int>
    const retriveIndex: array<int>
    const next: array<int>
    const sibling: array<int>

    constructor (d: nat)
      ensures fresh(positions) && fresh(retriveIndex) && fresh(next) && fresh(sibling) && Sized(d) && Cleared()
    {
      positions := new int[d];
      retriveIndex := new int[d];
      next := new int[d](_ => -1);
      sibling := new int[d](_ => -1);
    }

    ghost predicate Sized(d: nat) {
      && positions.Length == retriveIndex.Length == next.Length == sibling.Length == d
      && positions != retriveIndex && positions != next && positions != sibling
      && retriveIndex != next && retriveIndex != sibling && next != sibling
    }

    ghost predicate Cleared()
      reads next, sibling
    {
      next.Length == sibling.Length && forall k :: 0 <= k < next.Length ==> next[k] == -1 && sibling[k] == -1
    }

    ghost predicate Linked(par: seq<nat>, b: nat)
      reads retriveIndex, next, sibling
    {
      retriveIndex[..] == IndexRow(|par|, b) && next[..] == NextRow(par) && sibling[..] == SiblingRow(par)
    }

    twostate predicate Unchanged()
      reads retriveIndex, next, sibling
    {
      retriveIndex[..] == old(retriveIndex[..]) && next[..] == old(next[..]) && sibling[..] == old(sibling[..])
    }
  }
}
