/** The sort unit of the vector core, and the list routines of the lightning indexer built on it. */
module MrgSort {
  import opened TopK

  function Flat(lists: seq<seq<Entry>>): (r: seq<Entry>)
  {
    if lists == [] then [] else lists[0] + Flat(lists[1..])
  }

  predicate SomeEmpty(lists: seq<seq<Entry>>) {
    exists i :: 0 <= i < |lists| && lists[i] == []
  }

  predicate AllEmpty(lists: seq<seq<Entry>>) {
    forall i :: 0 <= i < |lists| ==> lists[i] == []
  }

  ghost predicate AllSorted(lists: seq<seq<Entry>>) {
    forall i :: 0 <= i < |lists| ==> Sorted(lists[i])
  }

  // Of the lists that are not used up, the first one whose head ranks first.
  function BestHead(lists: seq<seq<Entry>>): (b: nat)
    requires !AllEmpty(lists)
    ensures b < |lists| && lists[b] != []
    ensures forall i :: 0 <= i < |lists| && lists[i] != [] ==> Ge(lists[b][0], lists[i][0])
  {
    var n := |lists| - 1;
    if AllEmpty(lists[..n]) then n
    else
      var b := BestHead(lists[..n]);
      assert lists[..n][b] == lists[b] && forall i :: 0 <= i < n ==> lists[..n][i] == lists[i];
      if lists[n] == [] || Ge(lists[b][0], lists[n][0]) then b else n
  }

  // MrgSort: moves the best head out, again and again; with `suspend` it stops as soon as one list
  // is exhausted.
  function Mrg(lists: seq<seq<Entry>>, suspend: bool): seq<Entry>
    decreases |Flat(lists)|
  {
    if AllEmpty(lists) || (suspend && SomeEmpty(lists)) then []
    else
      var b := BestHead(lists);
      FlatPop(lists, b);
      [lists[b][0]] + Mrg(lists[b := lists[b][1..]], suspend)
  }

  lemma {:induction false} FlatPop(lists: seq<seq<Entry>>, b: nat)
    requires b < |lists| && lists[b] != []
    ensures |Flat(lists)| == |Flat(lists[b := lists[b][1..]])| + 1
    ensures multiset(Flat(lists)) == multiset{lists[b][0]} + multiset(Flat(lists[b := lists[b][1..]]))
  {
    var lists' := lists[b := lists[b][1..]];
    if b == 0 {
      assert lists'[1..] == lists[1..];
      assert lists[0] == [lists[0][0]] + lists'[0];
    } else {
      assert lists'[1..] == lists[1..][b - 1 := lists[b][1..]];
      FlatPop(lists[1..], b - 1);
    }
  }

  lemma {:induction false} FlatEmpty(lists: seq<seq<Entry>>)
    requires AllEmpty(lists)
    ensures Flat(lists) == []
  {
    if lists != [] {
      FlatEmpty(lists[1..]);
    }
  }

  lemma {:induction false} MrgKeepsAll(lists: seq<seq<Entry>>)
    ensures multiset(Mrg(lists, false)) == multiset(Flat(lists))
    decreases |Flat(lists)|
  {
    if AllEmpty(lists) {
      FlatEmpty(lists);
    } else {
      var b := BestHead(lists);
      FlatPop(lists, b);
      MrgKeepsAll(lists[b := lists[b][1..]]);
    }
  }

  ghost predicate DominatesAll(x: Entry, lists: seq<seq<Entry>>) {
    forall i :: 0 <= i < |lists| ==> Dominates(x, lists[i])
  }

  lemma {:induction false} MrgDominated(x: Entry, lists: seq<seq<Entry>>)
    requires DominatesAll(x, lists)
    ensures Dominates(x, Mrg(lists, false))
    decreases |Flat(lists)|
  {
    if !AllEmpty(lists) {
      var b := BestHead(lists);
      FlatPop(lists, b);
      assert Dominates(x, lists[b]);
      MrgDominated(x, lists[b := lists[b][1..]]);
    }
  }

  lemma {:induction false} MrgSorts(lists: seq<seq<Entry>>)
    requires AllSorted(lists)
    ensures Sorted(Mrg(lists, false))
    decreases |Flat(lists)|
  {
    if !AllEmpty(lists) {
      var b := BestHead(lists);
      var rest := lists[b := lists[b][1..]];
      FlatPop(lists, b);
      PopKeepsOrder(lists, b);
      MrgSorts(rest);
      MrgDominated(lists[b][0], rest);
      SortedCons(lists[b][0], Mrg(rest, false));
    }
  }

  lemma PopKeepsOrder(lists: seq<seq<Entry>>, b: nat)
    requires AllSorted(lists) && b < |lists| && lists[b] != []
    requires forall i :: 0 <= i < |lists| && lists[i] != [] ==> Ge(lists[b][0], lists[i][0])
    ensures AllSorted(lists[b := lists[b][1..]])
    ensures DominatesAll(lists[b][0], lists[b := lists[b][1..]])
  {
    forall i | 0 <= i < |lists| && lists[i] != []
      ensures Dominates(lists[b][0], lists[i]) && Sorted(lists[i][1..])
    {
      SortedHead(lists[i]);
      DominatesTrans(lists[b][0], lists[i][0], lists[i]);
    }
  }

  lemma DominatesTrans(x: Entry, y: Entry, s: seq<Entry>)
    requires Ge(x, y) && Dominates(y, s)
    ensures Dominates(x, s)
  {
  }

  // Merging sorted lists to the end is sorting their contents.
  lemma MrgIsSort(lists: seq<seq<Entry>>)
    requires AllSorted(lists)
    ensures Mrg(lists, false) == Sort(Flat(lists))
  {
    MrgSorts(lists);
    MrgKeepsAll(lists);
    SortIs(Flat(lists), Mrg(lists, false));
  }

  lemma {:induction false} SuspendedIsPrefix(lists: seq<seq<Entry>>)
    ensures Mrg(lists, true) <= Mrg(lists, false)
    decreases |Flat(lists)|
  {
    if !AllEmpty(lists) && !SomeEmpty(lists) {
      var b := BestHead(lists);
      FlatPop(lists, b);
      SuspendedIsPrefix(lists[b := lists[b][1..]]);
    }
  }

  lemma {:induction false} SuspendedIsLongEnough(lists: seq<seq<Entry>>, k: nat)
    requires lists != [] && forall i :: 0 <= i < |lists| ==> |lists[i]| >= k
    ensures |Mrg(lists, true)| >= k
    decreases |Flat(lists)|
  {
    if k > 0 {
      assert lists[0] != [];
      var b := BestHead(lists);
      FlatPop(lists, b);
      SuspendedIsLongEnough(lists[b := lists[b][1..]], k - 1);
    }
  }

  // A merge that stops when one full-length list is exhausted still holds the right first k.
  lemma SuspendedHoldsTop(lists: seq<seq<Entry>>, k: nat)
    requires AllSorted(lists) && lists != [] && forall i :: 0 <= i < |lists| ==> |lists[i]| >= k
    ensures |Mrg(lists, true)| >= k && |Flat(lists)| >= k
    ensures Take(Mrg(lists, true), k) == Top(k, Flat(lists))
  {
    SuspendedIsPrefix(lists);
    SuspendedIsLongEnough(lists, k);
    MrgIsSort(lists);
    assert Take(Mrg(lists, true), k) == Take(Mrg(lists, false), k);
    TopOfLong(k, Flat(lists));
  }

  lemma FullHoldsTop(lists: seq<seq<Entry>>, k: nat)
    requires AllSorted(lists) && |Flat(lists)| >= k
    ensures |Mrg(lists, false)| == |Flat(lists)|
    ensures Take(Mrg(lists, false), k) == Top(k, Flat(lists))
  {
    MrgIsSort(lists);
    TopOfLong(k, Flat(lists));
  }

  lemma FlatPair(a: seq<Entry>, b: seq<Entry>)
    ensures Flat([a, b]) == a + b
  {
    assert [a, b][1..] == [b];
    assert [b][1..] == [];
    assert Flat([b]) == b + [];
  }

  // MergeSort: merges a sorted block into the running list and keeps the list's length.
  method MergeSort(mrgDst: seq<Entry>, mrgSrc: seq<Entry>) returns (r: seq<Entry>)
    requires Sorted(mrgDst) && Sorted(mrgSrc)
    ensures r == Top(|mrgDst|, mrgDst + mrgSrc)
  {
    FlatPair(mrgDst, mrgSrc);
    FullHoldsTop([mrgDst, mrgSrc], |mrgDst|);
    var tmp := Mrg([mrgDst, mrgSrc], false);
    r := tmp[..|mrgDst|];
  }

  // SparseTopK: the same, but lists of equal length may stop early.
  method SparseTopK(dst: seq<Entry>, needsMerging: seq<Entry>, topk: nat) returns (r: seq<Entry>)
    requires Sorted(dst) && Sorted(needsMerging) && |dst| == topk
    ensures r == Top(topk, dst + needsMerging)
  {
    var suspend := topk == |needsMerging|;
    FlatPair(dst, needsMerging);
    if suspend {
      SuspendedHoldsTop([dst, needsMerging], topk);
    } else {
      FullHoldsTop([dst, needsMerging], topk);
    }
    var tmp := Mrg([dst, needsMerging], suspend);
    r := tmp[..topk];
  }

  // MrgBasicBlock: sorts up to four sorted blocks into one list.
  method MrgBasicBlock(src: seq<seq<Entry>>, blockNum: nat) returns (dst: seq<Entry>)
    requires 1 <= blockNum <= 4 && blockNum <= |src| && AllSorted(src[..blockNum])
    ensures dst == Sort(Flat(src[..blockNum]))
  {
    if blockNum == 2 || blockNum == 3 || blockNum == 4 {
      MrgIsSort(src[..blockNum]);
      dst := Mrg(src[..blockNum], false);
    } else {
      assert src[..blockNum] == [src[0]];
      assert Flat([src[0]]) == src[0] + Flat([src[0]][1..]) == src[0];
      SortIs(src[0], src[0]);
      dst := src[0];
    }
  }
}
