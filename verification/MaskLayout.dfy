/** Where the kernel writes the attention masks of a batch of draft trees, and that they do not touch. */
module MaskLayout {
  import opened Arith
  import opened Buffers
  import opened Swizzle
  import opened DraftTree
  import opened BuildTree

  // A batch of trees of d nodes, each behind a sequence of lens[b] cached tokens.
  datatype Forest = Forest(d: nat, lens: seq<nat>, pars: seq<seq<nat>>)
  {
    ghost predicate Ok() {
      && |pars| == |lens|
      && forall b :: 0 <= b < |pars| ==> Rooted(pars[b]) && |pars[b]| == d
    }

    function LenSum(b: nat): nat
      requires b <= |lens|
    {
      if b == 0 then 0 else LenSum(b - 1) + TableAt(lens[b - 1], d)
    }

    // Where the mask of request b starts: each of its d rows takes lens[b] + d places.
    function SeqTree(b: nat): nat
      requires b <= |lens|
    {
      TableAt(TableAt(d, d), b) + LenSum(b)
    }

    lemma SeqTreeNext(b: nat)
      requires b < |lens|
      ensures SeqTree(b + 1) == SeqTree(b) + d * (lens[b] + d)
    {
      Distribute(b, 1, d * d);
      Commute(d * d, b);
      Commute(d * d, b + 1);
      Distribute(lens[b], d, d);
      Commute(d, lens[b] + d);
    }
  }

  // Where row `tid` of the mask of request b goes; its first lens[b] places, for the tokens already in the
  // cache, are left alone.
  function MaskAt(f: Forest, b: nat, tid: nat): nat
    requires b < |f.lens|
  {
    f.SeqTree(b) + TableAt(f.lens[b] + f.d, tid) + f.lens[b]
  }

  // The rows of a request lie one behind the other, and before the masks of the next request.
  lemma MaskRowsInOrder(f: Forest, b: nat, i: nat, j: nat)
    requires b < |f.lens| && i < f.d
    ensures i < j ==> MaskAt(f, b, i) + f.d <= MaskAt(f, b, j) - f.lens[b]
    ensures f.SeqTree(b) <= MaskAt(f, b, i) - f.lens[b] && MaskAt(f, b, i) + f.d <= f.SeqTree(b + 1)
  {
    var W := f.lens[b] + f.d;
    f.SeqTreeNext(b);
    Distribute(i, 1, W);
    Commute(W, i);
    Commute(W, j);
    Commute(W, f.d);
    MulOrder(i + 1, j, W);
    MulOrder(i + 1, f.d, W);
  }

  lemma {:induction false} SeqTreeGrows(f: Forest, b: nat, c: nat)
    requires b <= c <= |f.lens|
    ensures f.SeqTree(b) <= f.SeqTree(c)
    decreases c
  {
    if b < c {
      SeqTreeGrows(f, b, c - 1);
      f.SeqTreeNext(c - 1);
      NonNegative(f.d, f.lens[c - 1] + f.d);
    }
  }

  // The mask writes of the first n nodes of request b, and of all nodes of requests lo .. hi.
  ghost function RequestWrites(f: Forest, b: nat, n: nat): (ws: seq<Write<bool>>)
    requires f.Ok() && b < |f.lens| && n <= f.d
    ensures |ws| == n
    ensures forall i :: 0 <= i < n ==> ws[i] == Write(MaskAt(f, b, i), MaskRow(f.pars[b], i))
  {
    seq(n, i requires 0 <= i < n => Write(MaskAt(f, b, i), MaskRow(f.pars[b], i)))
  }

  ghost function MaskWrites(f: Forest, lo: nat, hi: nat): seq<Write<bool>>
    requires f.Ok() && hi <= |f.lens|
    decreases hi
  {
    if hi <= lo then [] else MaskWrites(f, lo, hi - 1) + RequestWrites(f, hi - 1, f.d)
  }

  lemma {:induction false} MaskWritesJoin(f: Forest, lo: nat, mid: nat, hi: nat)
    requires f.Ok() && lo <= mid <= hi <= |f.lens|
    ensures MaskWrites(f, lo, hi) == MaskWrites(f, lo, mid) + MaskWrites(f, mid, hi)
    decreases hi
  {
    if mid < hi {
      MaskWritesJoin(f, lo, mid, hi - 1);
    }
  }

  // All writes of requests lo .. hi lie between the starts of lo and hi, in order.
  lemma {:induction false} MaskWritesInOrder(f: Forest, lo: nat, hi: nat)
    requires f.Ok() && lo <= hi <= |f.lens|
    ensures InOrder(MaskWrites(f, lo, hi)) && Between(MaskWrites(f, lo, hi), f.SeqTree(lo), f.SeqTree(hi))
    decreases hi
  {
    if lo < hi {
      MaskWritesInOrder(f, lo, hi - 1);
      RequestInOrder(f, hi - 1);
      SeqTreeGrows(f, lo, hi - 1);
      SeqTreeGrows(f, hi - 1, hi);
      OrderJoins(MaskWrites(f, lo, hi - 1), RequestWrites(f, hi - 1, f.d), f.SeqTree(lo), f.SeqTree(hi - 1), f.SeqTree(hi));
    }
  }

  lemma RequestInOrder(f: Forest, b: nat)
    requires f.Ok() && b < |f.lens|
    ensures InOrder(RequestWrites(f, b, f.d)) && Between(RequestWrites(f, b, f.d), f.SeqTree(b), f.SeqTree(b + 1))
  {
    forall i, j | 0 <= i < f.d && 0 <= j < f.d
      ensures f.SeqTree(b) <= MaskAt(f, b, i) && MaskAt(f, b, i) + f.d <= f.SeqTree(b + 1)
      ensures i < j ==> MaskAt(f, b, i) + f.d <= MaskAt(f, b, j)
    {
      MaskRowsInOrder(f, b, i, j);
    }
  }

  lemma MasksFit(f: Forest, lo: nat, hi: nat, size: nat)
    requires f.Ok() && lo <= hi <= |f.lens| && size >= f.SeqTree(|f.lens|)
    ensures AllFit(size, MaskWrites(f, lo, hi))
  {
    MaskWritesInOrder(f, lo, hi);
    SeqTreeGrows(f, hi, |f.lens|);
  }

  lemma {:induction false} HasWrite(f: Forest, lo: nat, hi: nat, b: nat, tid: nat) returns (i: nat)
    requires f.Ok() && lo <= b < hi <= |f.lens| && tid < f.d
    ensures i < |MaskWrites(f, lo, hi)|
    ensures MaskWrites(f, lo, hi)[i] == Write(MaskAt(f, b, tid), MaskRow(f.pars[b], tid))
    decreases hi
  {
    if b == hi - 1 {
      i := |MaskWrites(f, lo, hi - 1)| + tid;
    } else {
      i := HasWrite(f, lo, hi - 1, b, tid);
    }
  }

  // In the row of node tid exactly its ancestors and itself are marked, in every request: no later write
  // disturbs it.
  lemma MaskIsAncestors(f: Forest, m: seq<bool>, b: nat, tid: nat, a: nat)
    requires f.Ok() && b < |f.lens| && tid < f.d && a < f.d && |m| >= f.SeqTree(|f.lens|)
    ensures AllFit(|m|, MaskWrites(f, 0, |f.lens|)) && MaskAt(f, b, tid) + a < |m|
    ensures PutAll(m, MaskWrites(f, 0, |f.lens|))[MaskAt(f, b, tid) + a] == IsAncestor(f.pars[b], a, tid)
  {
    MasksFit(f, 0, |f.lens|, |m|);
    MaskWritesInOrder(f, 0, |f.lens|);
    var i := HasWrite(f, 0, |f.lens|, b, tid);
    RowStands(m, MaskWrites(f, 0, |f.lens|), i, MaskAt(f, b, tid), f.pars[b], tid, a);
  }

  lemma RowStands(m: seq<bool>, ws: seq<Write<bool>>, i: nat, at: nat, par: seq<nat>, tid: nat, a: nat)
    requires AllFit(|m|, ws) && InOrder(ws) && i < |ws| && Rooted(par) && tid < |par| && a < |par|
    requires ws[i] == Write(at, MaskRow(par, tid))
    ensures at + a < |m| && PutAll(m, ws)[at + a] == IsAncestor(par, a, tid)
  {
    WriteStands(m, ws, i, Write(at, MaskRow(par, tid)), a);
  }

  // The lens[b] places before each row are never written.
  lemma MaskPrefixStays(f: Forest, m: seq<bool>, b: nat, tid: nat, k: nat)
    requires f.Ok() && b < |f.lens| && tid < f.d && |m| >= f.SeqTree(|f.lens|)
    requires MaskAt(f, b, tid) - f.lens[b] <= k < MaskAt(f, b, tid)
    ensures AllFit(|m|, MaskWrites(f, 0, |f.lens|)) && k < |m|
    ensures PutAll(m, MaskWrites(f, 0, |f.lens|))[k] == m[k]
  {
    MasksFit(f, 0, |f.lens|, |m|);
    PlaceInside(f, b, tid);
    PrefixIsOff(f, 0, |f.lens|, b, tid, k);
    RestStays(m, MaskWrites(f, 0, |f.lens|), k);
  }

  lemma PlaceInside(f: Forest, b: nat, tid: nat)
    requires b < |f.lens| && tid < f.d
    ensures MaskAt(f, b, tid) + f.d <= f.SeqTree(|f.lens|)
  {
    MaskRowsInOrder(f, b, tid, 0);
    SeqTreeGrows(f, b + 1, |f.lens|);
  }

  lemma {:induction false} PrefixIsOff(f: Forest, lo: nat, hi: nat, b: nat, tid: nat, k: nat)
    requires f.Ok() && lo <= hi <= |f.lens| && b < |f.lens| && tid < f.d
    requires MaskAt(f, b, tid) - f.lens[b] <= k < MaskAt(f, b, tid)
    ensures forall i :: 0 <= i < |MaskWrites(f, lo, hi)| ==> !MaskWrites(f, lo, hi)[i].Covers(k)
    decreases hi
  {
    if lo < hi {
      PrefixIsOff(f, lo, hi - 1, b, tid, k);
      RequestIsOff(f, hi - 1, b, tid, k);
    }
  }

  lemma RequestIsOff(f: Forest, c: nat, b: nat, tid: nat, k: nat)
    requires f.Ok() && c < |f.lens| && b < |f.lens| && tid < f.d
    requires MaskAt(f, b, tid) - f.lens[b] <= k < MaskAt(f, b, tid)
    ensures forall i :: 0 <= i < f.d ==> !RequestWrites(f, c, f.d)[i].Covers(k)
  {
    forall i | 0 <= i < f.d
      ensures !RequestWrites(f, c, f.d)[i].Covers(k)
    {
      OffRow(f, c, i, b, tid, k);
    }
  }

  lemma OffRow(f: Forest, c: nat, i: nat, b: nat, tid: nat, k: nat)
    requires c < |f.lens| && i < f.d && b < |f.lens| && tid < f.d
    requires MaskAt(f, b, tid) - f.lens[b] <= k < MaskAt(f, b, tid)
    ensures k < MaskAt(f, c, i) || MaskAt(f, c, i) + f.d <= k
  {
    MaskRowsInOrder(f, b, tid, i);
    MaskRowsInOrder(f, c, i, tid);
    if c < b {
      SeqTreeGrows(f, c + 1, b);
    } else if b < c {
      SeqTreeGrows(f, b + 1, c);
    }
  }
}
