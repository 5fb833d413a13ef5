/** The speculative draft tree: nodes 0 (the root) .. d-1, each with the number of its parent. */
module DraftTree {
  import Arith

  // One request's draft: the selected candidate tokens and, for each group of topk candidates, the
  // candidate they were expanded from.
  datatype Draft = Draft(topk: nat, d: nat, selected: seq<int>, parents: seq<int>)
  {
    // What the kernel reads exists.
    predicate Shaped() {
      && topk > 0 && d > 0 && |selected| == d - 1
      && forall i :: 0 <= i < |selected| ==> 0 <= selected[i] && 0 <= selected[i] / topk < |parents|
    }

    // The candidates are in order, and the parent of each is an earlier, selected one.
    predicate WellFormed() {
      && Shaped()
      && (forall i, j :: 0 <= i < j < |selected| ==> selected[i] < selected[j])
      && forall i :: 0 <= i < |selected| && selected[i] >= topk ==>
           var t := selected[i] / topk;
           0 <= parents[t] < t * topk && parents[t] in selected
    }

    // Parent of node i: the root, another node, or d when the parent was not selected.
    function ParentOf(i: nat): (p: nat)
      requires Shaped() && 0 < i < d
      ensures p <= d
    {
      if selected[i - 1] < topk then 0 else Find(selected, parents[selected[i - 1] / topk]) + 1
    }

    function Parents(): (par: seq<nat>)
      requires Shaped()
      ensures |par| == d && forall i :: 0 <= i < d ==> par[i] <= d
    {
      seq(d, i requires 0 <= i < d => if i == 0 then 0 else ParentOf(i))
    }

    // In a well-formed draft every node comes after its parent.
    lemma ParentsComeFirst()
      requires WellFormed()
      ensures Rooted(Parents())
    {
      forall i | 1 <= i < d
        ensures ParentOf(i) < i
      {
        ParentIsEarlier(i);
      }
    }

    lemma ParentIsEarlier(i: nat)
      requires WellFormed() && 0 < i < d
      ensures ParentOf(i) < i
      ensures selected[i - 1] >= topk ==>
                0 < ParentOf(i) && selected[ParentOf(i) - 1] == parents[selected[i - 1] / topk]
    {
      var c := selected[i - 1];
      if c >= topk {
        var t := c / topk;
        Arith.DivBounds(c, topk);
        assert 0 <= parents[t] < t * topk && parents[t] in selected;
        FoundBefore(selected, i - 1, parents[t]);
      }
    }

    // Whose child a node is: the candidates of group t are those numbered from t * topk on. Candidates of group 0
    // hang from the root, those of another group from the node of the candidate that the group was expanded from.
    lemma ParentIs(i: nat, t: nat)
      requires WellFormed() && 0 < i < d && t * topk <= selected[i - 1] < t * topk + topk
      ensures t < |parents| && Parents()[i] < i
      ensures Parents()[i] == 0 <==> selected[i - 1] < topk
      ensures selected[i - 1] >= topk ==> selected[Parents()[i] - 1] == parents[t]
    {
      ParentIsEarlier(i);
      Arith.DivUnique(selected[i - 1], topk, t);
    }
  }

  lemma FoundBefore(s: seq<int>, i: nat, x: int)
    requires (forall i, j :: 0 <= i < j < |s| ==> s[i] < s[j]) && x in s && i < |s| && x < s[i]
    ensures Find(s, x) < i && s[Find(s, x)] == x
  {
    FindFinds(s, x);
    Sorted(s, i, Find(s, x));
  }

  lemma Sorted(s: seq<int>, i: nat, j: nat)
    requires forall i, j :: 0 <= i < j < |s| ==> s[i] < s[j]
    ensures i <= j < |s| ==> s[i] <= s[j]
  {
  }

  // First place of x in s; |s| if there is none.
  function Find(s: seq<int>, x: int): (j: nat)
    ensures j <= |s| && x !in s[..j]
    ensures j < |s| ==> s[j] == x
  {
    if s == [] || s[0] == x then 0
    else
      var j := Find(s[1..], x) + 1;
      assert s[..j] == [s[0]] + s[1..][..j - 1];
      j
  }

  lemma FindFinds(s: seq<int>, x: int)
    ensures x in s <==> Find(s, x) < |s|
  {
    assert s[..|s|] == s;
  }

  ghost predicate Rooted(par: seq<nat>) {
    |par| > 0 && forall i :: 1 <= i < |par| ==> par[i] < i
  }

  function Depth(par: seq<nat>, i: nat): nat
    requires Rooted(par) && i < |par|
  {
    if i == 0 then 0 else Depth(par, par[i]) + 1
  }

  // a is i itself, or lies on its way to the root.
  predicate IsAncestor(par: seq<nat>, a: nat, i: nat)
    requires Rooted(par) && i < |par|
    decreases i
  {
    a == i || (i > 0 && IsAncestor(par, a, par[i]))
  }

  lemma {:induction false} AncestorBound(par: seq<nat>, a: nat, i: nat)
    requires Rooted(par) && i < |par| && IsAncestor(par, a, i)
    ensures a <= i
    decreases i
  {
    if a != i {
      AncestorBound(par, a, par[i]);
    }
  }

  lemma {:induction false} RootIsAncestor(par: seq<nat>, i: nat)
    requires Rooted(par) && i < |par|
    ensures IsAncestor(par, 0, i)
    decreases i
  {
    if i > 0 {
      RootIsAncestor(par, par[i]);
    }
  }

  // Between a node on the way to the root and its parent there is no further node of that way.
  lemma {:induction false} NothingBetween(par: seq<nat>, a: nat, n: nat, i: nat)
    requires Rooted(par) && i < |par| && 0 < n && IsAncestor(par, n, i)
    requires n < |par| && par[n] < a < n
    ensures !IsAncestor(par, a, i)
    decreases i
  {
    AncestorBound(par, n, i);
    if n == i {
      if IsAncestor(par, a, i) {
        AncestorBound(par, a, par[i]);
      }
    } else {
      NothingBetween(par, a, n, par[i]);
    }
  }

  lemma {:induction false} ParentIsAncestor(par: seq<nat>, n: nat, i: nat)
    requires Rooted(par) && i < |par| && 0 < n && n < |par| && IsAncestor(par, n, i)
    ensures IsAncestor(par, par[n], i)
    decreases i
  {
    if n != i {
      ParentIsAncestor(par, n, par[i]);
    }
  }

  // ----- children -----

  // The children of p from number k on, in increasing order.
  function Children(par: seq<nat>, p: nat, k: nat): seq<nat>
    decreases |par| - k
  {
    if k >= |par| then [] else if k > 0 && par[k] == p then [k] + Children(par, p, k + 1) else Children(par, p, k + 1)
  }

  // The first of them, or -1.
  function FirstChild(par: seq<nat>, p: nat, k: nat): (c: int)
    ensures c == -1 || (k <= c < |par| && c > 0 && par[c] == p)
    decreases |par| - k
  {
    if k >= |par| then -1 else if k > 0 && par[k] == p then k else FirstChild(par, p, k + 1)
  }

  // Every child appears, once, and the list increases.
  lemma {:induction false} ChildrenAreAll(par: seq<nat>, p: nat, k: nat)
    ensures var s := Children(par, p, k);
            && (forall i :: i in s <==> k <= i < |par| && 0 < i && par[i] == p)
            && forall a, b :: 0 <= a < b < |s| ==> s[a] < s[b]
    decreases |par| - k
  {
    if k < |par| {
      ChildrenAreAll(par, p, k + 1);
      var s, rest := Children(par, p, k), Children(par, p, k + 1);
      if k > 0 && par[k] == p {
        assert s == [k] + rest;
        assert forall i :: i in s <==> i == k || i in rest;
        assert forall b :: 0 < b < |s| ==> s[b] == rest[b - 1] && rest[b - 1] in rest;
      }
    }
  }

  // The two link arrays of a tree; a node without a parent has no sibling.
  ghost predicate Linked(par: seq<nat>, next: seq<int>, sibling: seq<int>) {
    && |next| == |sibling| == |par|
    && (forall p :: 0 <= p < |par| ==> next[p] == FirstChild(par, p, 1))
    && forall i :: 0 <= i < |par| ==> sibling[i] == SiblingOf(par, i)
  }

  function SiblingOf(par: seq<nat>, i: nat): int
    requires i < |par|
  {
    if i == 0 || par[i] >= |par| then -1 else FirstChild(par, par[i], i + 1)
  }

  // The nodes met from c on along the sibling links.
  function FollowSiblings(sibling: seq<int>, c: int, fuel: nat): seq<int>
    decreases fuel
  {
    if 0 <= c < |sibling| && fuel > 0 then [c] + FollowSiblings(sibling, sibling[c], fuel - 1) else []
  }

  // Following the links lists the children of every node: each once, in increasing order.
  lemma {:induction false} LinksListChildren(par: seq<nat>, next: seq<int>, sibling: seq<int>, p: nat, k: nat, fuel: nat)
    requires Linked(par, next, sibling) && p < |par| && fuel >= |par| - k
    ensures FollowSiblings(sibling, FirstChild(par, p, k), fuel) == Children(par, p, k)
    decreases |par| - k
  {
    var c := FirstChild(par, p, k);
    if k < |par| {
      if c == k {
        LinksListChildren(par, next, sibling, p, k + 1, fuel - 1);
      } else {
        LinksListChildren(par, next, sibling, p, k + 1, fuel);
      }
    }
  }

  // With two draft tokens and topk 1 the second is always the child of the root: the short cut that skips
  // the general search is right.
  lemma TwoNodes(g: Draft, next: seq<int>, sibling: seq<int>)
    requires g.WellFormed() && g.d == 2 && g.topk == 1
    ensures g.Parents() == [0, 0] && Rooted(g.Parents())
    ensures Depth(g.Parents(), 0) == 0 && Depth(g.Parents(), 1) == 1
    ensures Linked(g.Parents(), next, sibling) <==> next == [1, -1] && sibling == [-1, -1]
  {
    g.ParentsComeFirst();
    var par := g.Parents();
    assert par[1] < 1;
    assert par == [0, 0];
    assert FirstChild(par, 0, 1) == 1;
    assert FirstChild(par, 1, 2) == -1 && FirstChild(par, 0, 2) == -1;
    assert FirstChild(par, 1, 1) == FirstChild(par, 1, 2);
    assert SiblingOf(par, 0) == -1 && SiblingOf(par, 1) == -1;
    if Linked(par, next, sibling) {
      assert next == [1, -1] && sibling == [-1, -1];
    }
  }
}
