/** The kernel that turns a batch of drafts into link arrays, positions and attention masks. */
module BuildTree {
  import Arith
  import opened DraftTree

  // ----- one draft -----

  // The search for the parent of node i. It may look one place past the row of the draft; `beyond` is
  // what it finds there.
  method FindParent(g: Draft, i: nat, beyond: int, ghost par: seq<nat>) returns (parentPosition: nat)
    requires g.Shaped() && par == g.Parents() && 0 < i < |par|
    ensures parentPosition == par[i] <= |par|
  {
    parentPosition := 0;
    var parentTbIdx: nat := g.selected[i - 1] / g.topk;
    FirstGroup(g.selected[i - 1], g.topk);
    if parentTbIdx > 0 {
      var x := g.parents[parentTbIdx];
      parentPosition := Search(g, x, beyond);
      if parentPosition < g.d {
        parentPosition := parentPosition + 1;
      }
    }
  }

  lemma FirstGroup(c: nat, topk: nat)
    requires topk > 0
    ensures c / topk == 0 <==> c < topk
  {
    Arith.DivBounds(c, topk);
    if c < topk {
      Arith.DivUnique(c, topk, 0);
    }
  }

  // The first place of x in the selected candidates; otherwise d - 1 or d.
  method Search(g: Draft, x: int, beyond: int) returns (j: nat)
    requires g.Shaped()
    ensures Find(g.selected, x) < |g.selected| ==> j == Find(g.selected, x)
    ensures Find(g.selected, x) == |g.selected| ==> j == (if beyond == x then g.d - 1 else g.d)
  {
    j := 0;
    while j < g.d
      invariant j <= g.d && (j < g.d ==> j <= Find(g.selected, x))
      invariant j == g.d ==> beyond != x && Find(g.selected, x) == |g.selected|
    {
      FirstPlace(g.selected, x, j);
      if (if j < |g.selected| then g.selected[j] else beyond) == x {
        break;
      }
      j := j + 1;
    }
  }

  lemma FirstPlace(s: seq<int>, x: int, j: nat)
    ensures j <= Find(s, x) && j < |s| ==> (s[j] == x <==> j == Find(s, x))
  {
    if j < Find(s, x) {
      assert s[..Find(s, x)][j] == s[j];
    }
  }

  // The links among the nodes from k on.
  ghost predicate LinkedFrom(par: seq<nat>, k: nat, next: seq<int>, sibling: seq<int>) {
    && |next| == |sibling| == |par|
    && (forall p :: 0 <= p < |par| ==> next[p] == FirstChild(par, p, k))
    && forall i :: 0 <= i < |par| ==> sibling[i] == if i >= k then SiblingOf(par, i) else -1
  }

  ghost predicate NumberedFrom(k: nat, offset: int, index: seq<int>) {
    forall j :: k <= j < |index| ==> index[j] == offset + j
  }

  // Numbers node i and puts it in front of the children its parent has so far. A node without a parent
  // stays out.
  method LinkNode(ghost par: seq<nat>, i: nat, parentPosition: nat, offset: int,
                  index: array<int>, next: array<int>, sibling: array<int>)
    requires 0 < i < |par| == index.Length && parentPosition == par[i] <= |par|
    requires next != sibling && index != next && index != sibling
    requires LinkedFrom(par, i + 1, next[..], sibling[..]) && NumberedFrom(i + 1, offset, index[..])
    modifies index, next, sibling
    ensures LinkedFrom(par, i, next[..], sibling[..]) && NumberedFrom(i, offset, index[..])
  {
    index[i] := offset + i;
    if parentPosition == next.Length {
      return;
    }
    if next[parentPosition] == -1 {
      next[parentPosition] := i;
    } else {
      var originNextToken := next[parentPosition];
      next[parentPosition] := i;
      sibling[i] := originNextToken;
    }
  }

  // Numbers and links all nodes, from the last to the first, and then the root.
  method LinkTokens(g: Draft, beyond: int, offset: int, index: array<int>, next: array<int>, sibling: array<int>,
                    ghost par: seq<nat>)
    requires g.Shaped() && par == g.Parents() && index.Length == next.Length == sibling.Length == |par| > 0
    requires next != sibling && index != next && index != sibling
    requires forall k :: 0 <= k < |par| ==> next[k] == -1 && sibling[k] == -1
    modifies index, next, sibling
    ensures Linked(par, next[..], sibling[..]) && NumberedFrom(0, offset, index[..])
  {
    NothingLinked(par, |par|, next[..], sibling[..]);
    var i: nat := index.Length - 1;
    while i > 0
      invariant i < |par|
      invariant LinkedFrom(par, i + 1, next[..], sibling[..]) && NumberedFrom(i + 1, offset, index[..])
    {
      var parentPosition := FindParent(g, i, beyond, par);
      LinkNode(par, i, parentPosition, offset, index, next, sibling);
      i := i - 1;
    }
    index[0] := offset;
  }

  lemma NothingLinked(par: seq<nat>, d: nat, next: seq<int>, sibling: seq<int>)
    requires |par| == |next| == |sibling| == d
    requires forall k :: 0 <= k < d ==> next[k] == -1 && sibling[k] == -1
    ensures LinkedFrom(par, d, next, sibling)
  {
  }

  // The nodes of the way from tid to the root that lie above n are marked, and the root.
  ghost predicate Marked(par: seq<nat>, tid: nat, n: int, mask: seq<bool>)
    requires Rooted(par) && tid < |par|
  {
    |mask| == |par| && forall a :: 0 <= a < |par| ==> mask[a] == (a == 0 || (a > n && IsAncestor(par, a, tid)))
  }

  method Mark(ghost par: seq<nat>, tid: nat, n: nat, mask: array<bool>)
    requires Rooted(par) && 0 < n < |par| && tid < |par| && IsAncestor(par, n, tid)
    requires Marked(par, tid, n, mask[..])
    modifies mask
    ensures Marked(par, tid, par[n], mask[..])
  {
    mask[n] := true;
    forall a | par[n] < a < n
      ensures !IsAncestor(par, a, tid)
    {
      NothingBetween(par, a, n, tid);
    }
  }

  lemma OnlyRootMarked(par: seq<nat>, tid: nat, mask: seq<bool>)
    requires Rooted(par) && tid < |par| == |mask|
    requires forall a :: 0 <= a < |mask| ==> mask[a] == (a == 0)
    ensures Marked(par, tid, tid, mask)
  {
    forall a | tid < a < |par|
      ensures !IsAncestor(par, a, tid)
    {
      if IsAncestor(par, a, tid) {
        AncestorBound(par, a, tid);
      }
    }
  }

  lemma AllMarked(par: seq<nat>, tid: nat, mask: seq<bool>)
    requires Rooted(par) && tid < |par| && Marked(par, tid, 0, mask)
    ensures mask == MaskRow(par, tid)
  {
    RootIsAncestor(par, tid);
  }

  // Row of node tid in the attention mask: its ancestors and itself.
  function MaskRow(par: seq<nat>, tid: nat): (r: seq<bool>)
    requires Rooted(par) && tid < |par|
    ensures |r| == |par|
  {
    seq(|par|, a requires 0 <= a < |par| => IsAncestor(par, a, tid))
  }

  // The way from node tid to the root: its length, and a mask of the nodes on it.
  method Ancestors(g: Draft, tid: nat, mask: array<bool>, ghost par: seq<nat>) returns (position: nat)
    requires g.Shaped() && par == g.Parents() && Rooted(par) && 0 < tid < |par| == mask.Length
    requires forall a :: 0 <= a < |par| ==> mask[a] == (a == 0)
    modifies mask
    ensures position == Depth(par, tid) && mask[..] == MaskRow(par, tid)
  {
    var node: nat := tid;
    position := 0;
    OnlyRootMarked(par, tid, mask[..]);
    while true
      invariant 0 < node < |par| && IsAncestor(par, node, tid) && Marked(par, tid, node, mask[..])
      invariant position + Depth(par, node) == Depth(par, tid)
      decreases node
    {
      position := position + 1;
      Mark(par, tid, node, mask);
      ParentIsAncestor(par, node, tid);
      var parent, atRoot := Up(g, node, par);
      if atRoot {
        break;
      }
      node := parent;
    }
    AllMarked(par, tid, mask[..]);
  }

  // From a node to its parent: the end of the way when the candidate belongs to the first group.
  method Up(g: Draft, node: nat, ghost par: seq<nat>) returns (parent: nat, atRoot: bool)
    requires g.Shaped() && par == g.Parents() && Rooted(par) && 0 < node < g.d
    ensures parent == par[node] && (atRoot <==> parent == 0)
  {
    var curPosition: nat := node - 1;
    var parentTbIdx: nat := g.selected[curPosition] / g.topk;
    FirstGroup(g.selected[curPosition], g.topk);
    atRoot := parentTbIdx == 0;
    if atRoot {
      parent := 0;
    } else {
      curPosition := Search(g, g.parents[parentTbIdx], 0);
      parent := curPosition + 1;
    }
  }
}
