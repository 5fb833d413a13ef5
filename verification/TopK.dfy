/** Scored keys, their ranking, and the k best of a collection. */
module TopK {

  // A sort slot: a scored key, or the padding value (-inf, -1), which ranks last.
  datatype Entry = Pad | Key(score: int, idx: nat)

  // x ranks at or before y: higher scores first, equal scores by key position.
  predicate Ge(x: Entry, y: Entry) {
    y.Pad? || (x.Key? && (x.score > y.score || (x.score == y.score && x.idx <= y.idx)))
  }

  predicate Sorted(s: seq<Entry>) {
    forall i, j :: 0 <= i < j < |s| ==> Ge(s[i], s[j])
  }

  function Take<T>(s: seq<T>, k: nat): (r: seq<T>)
    ensures |r| == if |s| <= k then |s| else k
  {
    if |s| <= k then s else s[..k]
  }

  function Pads(n: nat): (r: seq<Entry>)
    ensures |r| == n && forall i :: 0 <= i < n ==> r[i] == Pad
  {
    seq(n, _ => Pad)
  }

  function Merge(a: seq<Entry>, b: seq<Entry>): (r: seq<Entry>)
    ensures |r| == |a| + |b|
  {
    if a == [] then b
    else if b == [] then a
    else if Ge(a[0], b[0]) then [a[0]] + Merge(a[1..], b)
    else [b[0]] + Merge(a, b[1..])
  }

  function Sort(s: seq<Entry>): (r: seq<Entry>)
    ensures |r| == |s|
  {
    if s == [] then [] else Merge([s[0]], Sort(s[1..]))
  }

  // The k best of s, filled up with padding.
  function Top(k: nat, s: seq<Entry>): (r: seq<Entry>)
    ensures |r| == k
  {
    Take(Sort(s) + Pads(k), k)
  }

  lemma SplitHead(s: seq<Entry>)
    requires s != []
    ensures multiset(s) == multiset{s[0]} + multiset(s[1..])
  {
    assert s == [s[0]] + s[1..];
  }

  lemma {:induction false} MergeKeepsAll(a: seq<Entry>, b: seq<Entry>)
    ensures multiset(Merge(a, b)) == multiset(a) + multiset(b)
  {
    if a != [] && b != [] {
      SplitHead(a);
      SplitHead(b);
      SplitHead(Merge(a, b));
      if Ge(a[0], b[0]) {
        assert Merge(a, b)[1..] == Merge(a[1..], b);
        MergeKeepsAll(a[1..], b);
      } else {
        assert Merge(a, b)[1..] == Merge(a, b[1..]);
        MergeKeepsAll(a, b[1..]);
      }
    }
  }

  ghost predicate Dominates(x: Entry, s: seq<Entry>) {
    forall i :: 0 <= i < |s| ==> Ge(x, s[i])
  }

  lemma {:induction false} MergeDominated(x: Entry, a: seq<Entry>, b: seq<Entry>)
    requires Dominates(x, a) && Dominates(x, b)
    ensures Dominates(x, Merge(a, b))
  {
    if a != [] && b != [] {
      if Ge(a[0], b[0]) {
        MergeDominated(x, a[1..], b);
      } else {
        MergeDominated(x, a, b[1..]);
      }
    }
  }

  lemma SortedCons(x: Entry, s: seq<Entry>)
    requires Dominates(x, s) && Sorted(s)
    ensures Sorted([x] + s)
  {
  }

  lemma SortedHead(s: seq<Entry>)
    requires Sorted(s) && s != []
    ensures Dominates(s[0], s) && Dominates(s[0], s[1..]) && Sorted(s[1..])
  {
  }

  lemma {:induction false} MergeSorted(a: seq<Entry>, b: seq<Entry>)
    requires Sorted(a) && Sorted(b)
    ensures Sorted(Merge(a, b))
  {
    if a != [] && b != [] {
      SortedHead(a);
      SortedHead(b);
      if Ge(a[0], b[0]) {
        MergeSorted(a[1..], b);
        MergeDominated(a[0], a[1..], b);
        SortedCons(a[0], Merge(a[1..], b));
      } else {
        MergeSorted(a, b[1..]);
        MergeDominated(b[0], a, b[1..]);
        SortedCons(b[0], Merge(a, b[1..]));
      }
    }
  }

  lemma {:induction false} SortSorts(s: seq<Entry>)
    ensures Sorted(Sort(s)) && multiset(Sort(s)) == multiset(s)
  {
    if s != [] {
      SortSorts(s[1..]);
      MergeSorted([s[0]], Sort(s[1..]));
      MergeKeepsAll([s[0]], Sort(s[1..]));
      SplitHead(s);
    }
  }

  // The ranking is a total order, so a sorted list is fixed by its contents.
  lemma {:induction false} SortedUnique(s: seq<Entry>, t: seq<Entry>)
    requires Sorted(s) && Sorted(t) && multiset(s) == multiset(t)
    ensures s == t
  {
    assert |s| == |multiset(s)| == |multiset(t)| == |t|;
    if s != [] {
      SortedHead(s);
      SortedHead(t);
      assert s[0] in multiset(t) && t[0] in multiset(s);
      assert s[0] == t[0];
      SplitHead(s);
      SplitHead(t);
      assert multiset(s[1..]) == multiset(s) - multiset{s[0]};
      SortedUnique(s[1..], t[1..]);
      assert s == [s[0]] + s[1..] && t == [t[0]] + t[1..];
    }
  }

  lemma SortIs(s: seq<Entry>, t: seq<Entry>)
    requires Sorted(t) && multiset(s) == multiset(t)
    ensures Sort(s) == t
  {
    SortSorts(s);
    SortedUnique(Sort(s), t);
  }

  lemma TopOfSame(k: nat, s: seq<Entry>, t: seq<Entry>)
    requires multiset(s) == multiset(t)
    ensures Top(k, s) == Top(k, t)
  {
    SortSorts(t);
    SortIs(s, Sort(t));
  }

  // Only the first k of a list matter to the first k of a merge.
  lemma {:induction false} MergeTake(a: seq<Entry>, b: seq<Entry>, k: nat)
    ensures Take(Merge(a, b), k) == Take(Merge(Take(a, k), b), k)
    decreases |a| + |b|
  {
    if a != [] && b != [] && k > 0 {
      var a' := Take(a, k);
      if Ge(a[0], b[0]) {
        MergeTake(a[1..], b, k - 1);
        MergeTake(a'[1..], b, k - 1);
        assert Take(a'[1..], k - 1) == Take(a[1..], k - 1);
        TakeCons(a[0], Merge(a[1..], b), k);
        TakeCons(a[0], Merge(a'[1..], b), k);
      } else {
        MergeTake(a, b[1..], k - 1);
        MergeTake(a', b[1..], k - 1);
        assert Take(a', k - 1) == Take(a, k - 1);
        TakeCons(b[0], Merge(a, b[1..]), k);
        TakeCons(b[0], Merge(a', b[1..]), k);
      }
    }
  }

  lemma TakeCons(x: Entry, s: seq<Entry>, k: nat)
    requires k > 0
    ensures Take([x] + s, k) == [x] + Take(s, k - 1)
  {
  }

  lemma TakeAppend(s: seq<Entry>, t: seq<Entry>, k: nat)
    requires |s| >= k
    ensures Take(s + t, k) == Take(s, k)
  {
  }

  lemma PadsAtEnd(s: seq<Entry>, n: nat)
    requires Sorted(s)
    ensures Sorted(s + Pads(n))
  {
  }

  // Padding never displaces a key.
  lemma TopIgnoresPads(k: nat, s: seq<Entry>, n: nat)
    ensures Top(k, s + Pads(n)) == Top(k, s)
  {
    SortSorts(s);
    PadsAtEnd(Sort(s), n);
    assert multiset(s + Pads(n)) == multiset(Sort(s) + Pads(n));
    SortIs(s + Pads(n), Sort(s) + Pads(n));
    PadsTake(Sort(s), n, k);
  }

  lemma PadsTake(a: seq<Entry>, n: nat, k: nat)
    ensures Take(a + Pads(n) + Pads(k), k) == Take(a + Pads(k), k)
  {
  }

  lemma TopIsSorted(k: nat, s: seq<Entry>)
    ensures Sorted(Top(k, s))
  {
    SortSorts(s);
    PadsAtEnd(Sort(s), k);
  }

  // With at least k entries there is no padding to add.
  lemma TopOfLong(k: nat, s: seq<Entry>)
    requires |s| >= k
    ensures Top(k, s) == Take(Sort(s), k)
  {
    TakeAppend(Sort(s), Pads(k), k);
  }

  // Keeping only the k best of one part loses nothing.
  lemma TopAbsorbs(k: nat, a: seq<Entry>, b: seq<Entry>)
    ensures Top(k, Top(k, a) + b) == Top(k, a + b)
  {
    var full := Sort(a) + Pads(k);
    SortSorts(a);
    SortSorts(b);
    PadsAtEnd(Sort(a), k);
    TopIsSorted(k, a);
    MergeIsSort(Take(full, k), Sort(b), Top(k, a) + b);
    assert multiset(full) + multiset(Sort(b)) == multiset(a + b + Pads(k));
    MergeIsSort(full, Sort(b), a + b + Pads(k));
    MergeTake(full, Sort(b), k);
    TopOfLong(k, Top(k, a) + b);
    TopOfLong(k, a + b + Pads(k));
    TopIgnoresPads(k, a + b, k);
  }

  lemma MergeIsSort(a: seq<Entry>, b: seq<Entry>, s: seq<Entry>)
    requires Sorted(a) && Sorted(b) && multiset(s) == multiset(a) + multiset(b)
    ensures Sort(s) == Merge(a, b)
  {
    MergeSorted(a, b);
    MergeKeepsAll(a, b);
    SortIs(s, Merge(a, b));
  }

  // What Top means: every kept entry is a key with a higher score than one left out, or with the
  // same score and no later position.
  lemma TopIsBest(k: nat, s: seq<Entry>, x: Entry)
    requires x.Key? && multiset(s)[x] > multiset(Top(k, s))[x]
    ensures forall i :: 0 <= i < k ==>
              && Top(k, s)[i].Key?
              && (Top(k, s)[i].score > x.score || (Top(k, s)[i].score == x.score && Top(k, s)[i].idx <= x.idx))
  {
    var full := Sort(s) + Pads(k);
    SortSorts(s);
    PadsAtEnd(Sort(s), k);
    assert multiset(full)[x] >= multiset(s)[x];
    RestHolds(full, k, x);
    var j :| k <= j < |full| && full[j] == x;
    forall i | 0 <= i < k
      ensures Ge(Top(k, s)[i], x)
    {
      assert Ge(full[i], full[j]);
    }
  }

  lemma RestHolds(full: seq<Entry>, k: nat, x: Entry)
    requires k <= |full| && multiset(full)[x] > multiset(full[..k])[x]
    ensures exists j :: k <= j < |full| && full[j] == x
  {
    assert full == full[..k] + full[k..];
    assert x in full[k..];
  }

  // ... and whatever is kept comes from s.
  lemma TopComesFrom(k: nat, s: seq<Entry>, x: Entry)
    requires x.Key?
    ensures multiset(Top(k, s))[x] <= multiset(s)[x]
  {
    var full := Sort(s) + Pads(k);
    SortSorts(s);
    assert full == Top(k, s) + full[k..];
    assert x !in Pads(k);
    assert multiset(full)[x] == multiset(s)[x];
  }
}
