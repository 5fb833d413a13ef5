/** The in-place block sort of the vector core: runs of 32 are merged four by four between two buffers. */
module SortAll {
  import opened TopK
  import opened MrgSort
  import opened Buffers

  const BLOCK_BYTES: nat := 32

  // The places that c runs of length e take.
  function Len(e: nat, c: nat): nat
    decreases c
  {
    if c == 0 then 0 else e + Len(e, c - 1)
  }

  lemma {:induction false} LenIs(e: nat, c: nat)
    ensures Len(e, c) == c * e
    decreases c
  {
    if c > 0 {
      LenIs(e, c - 1);
      assert (c - 1) * e + e == c * e;
    }
  }

  // The c runs of length e that begin at place o.
  function Runs(s: seq<Entry>, o: nat, e: nat, c: nat): (r: seq<seq<Entry>>)
    requires o + Len(e, c) <= |s|
    decreases c
  {
    if c == 0 then [] else [Cut(s, o, e)] + Runs(s, o + e, e, c - 1)
  }

  // row is raw in ranking order.
  ghost predicate Ordered(row: seq<Entry>, raw: seq<Entry>) {
    row == Sort(raw)
  }

  // Places o .. o + n - 1 of cur hold the same places of `input`, in ranking order.
  ghost predicate Sorts(cur: seq<Entry>, input: seq<Entry>, o: nat, n: nat) {
    |cur| == |input| && o + n <= |input| && Ordered(Cut(cur, o, n), Cut(input, o, n))
  }

  // From place o on, cur holds c sorted runs of length e.
  ghost predicate RunsSorted(cur: seq<Entry>, input: seq<Entry>, o: nat, e: nat, c: nat)
    decreases c
  {
    if c == 0 then |cur| == |input| && o <= |input|
    else Sorts(cur, input, o, e) && RunsSorted(cur, input, o + e, e, c - 1)
  }

  lemma {:induction false} RunsFit(cur: seq<Entry>, input: seq<Entry>, o: nat, e: nat, c: nat)
    requires RunsSorted(cur, input, o, e, c)
    ensures o + Len(e, c) <= |cur| == |input|
    decreases c
  {
    if c > 0 {
      RunsFit(cur, input, o + e, e, c - 1);
    }
  }

  ghost predicate AllOrdered(lists: seq<seq<Entry>>, raws: seq<seq<Entry>>) {
    |lists| == |raws| && forall i :: 0 <= i < |lists| ==> Ordered(lists[i], raws[i])
  }

  lemma ConsOrdered(x: seq<Entry>, y: seq<Entry>, lists: seq<seq<Entry>>, raws: seq<seq<Entry>>)
    requires Ordered(x, y) && AllOrdered(lists, raws)
    ensures AllOrdered([x] + lists, [y] + raws)
  {
  }

  lemma {:induction false} RunsOrdered(cur: seq<Entry>, input: seq<Entry>, o: nat, e: nat, c: nat)
    requires RunsSorted(cur, input, o, e, c) && o + Len(e, c) <= |cur| == |input|
    ensures AllOrdered(Runs(cur, o, e, c), Runs(input, o, e, c))
    decreases c
  {
    if c > 0 {
      RunsOrdered(cur, input, o + e, e, c - 1);
      ConsOrdered(Cut(cur, o, e), Cut(input, o, e), Runs(cur, o + e, e, c - 1), Runs(input, o + e, e, c - 1));
    }
  }

  lemma {:induction false} OrderedContents(lists: seq<seq<Entry>>, raws: seq<seq<Entry>>)
    requires AllOrdered(lists, raws)
    ensures AllSorted(lists) && multiset(Flat(lists)) == multiset(Flat(raws))
  {
    if lists != [] {
      assert Ordered(lists[0], raws[0]);
      SortSorts(raws[0]);
      OrderedContents(lists[1..], raws[1..]);
    }
  }

  lemma {:induction false} FlatRuns(s: seq<Entry>, o: nat, e: nat, c: nat)
    requires o + Len(e, c) <= |s|
    ensures Flat(Runs(s, o, e, c)) == Cut(s, o, Len(e, c))
    decreases c
  {
    if c > 0 {
      FlatRuns(s, o + e, e, c - 1);
      CutJoins(s, o, e, Len(e, c - 1));
      FlatCons(Cut(s, o, e), Runs(s, o + e, e, c - 1));
    }
  }

  lemma FlatCons(x: seq<Entry>, rest: seq<seq<Entry>>)
    ensures Flat([x] + rest) == x + Flat(rest)
  {
    assert ([x] + rest)[1..] == rest;
  }

  lemma CutJoins(s: seq<Entry>, o: nat, a: nat, b: nat)
    requires o + a + b <= |s|
    ensures Cut(s, o, a + b) == Cut(s, o, a) + Cut(s, o + a, b)
  {
  }

  lemma SameSort(s: seq<Entry>, t: seq<Entry>)
    requires multiset(s) == multiset(t)
    ensures Sort(s) == Sort(t)
  {
    SortSorts(t);
    SortIs(s, Sort(t));
  }

  // Merging neighbouring sorted runs sorts the longer run they make up.
  lemma GroupSorts(cur: seq<Entry>, input: seq<Entry>, o: nat, e: nat, c: nat)
    requires RunsSorted(cur, input, o, e, c)
    ensures o + Len(e, c) <= |cur| == |input|
    ensures Ordered(Mrg(Runs(cur, o, e, c), false), Cut(input, o, Len(e, c)))
  {
    RunsFit(cur, input, o, e, c);
    RunsOrdered(cur, input, o, e, c);
    OrderedContents(Runs(cur, o, e, c), Runs(input, o, e, c));
    FlatRuns(input, o, e, c);
    MrgIsSort(Runs(cur, o, e, c));
    SameSort(Flat(Runs(cur, o, e, c)), Cut(input, o, Len(e, c)));
  }

  lemma {:induction false} RunsSplit(cur: seq<Entry>, input: seq<Entry>, o: nat, e: nat, a: nat, b: nat)
    ensures RunsSorted(cur, input, o, e, a + b) <==>
            RunsSorted(cur, input, o, e, a) && RunsSorted(cur, input, o + Len(e, a), e, b)
    decreases a
  {
    if a > 0 {
      RunsSplit(cur, input, o + e, e, a - 1, b);
    } else {
      RunsStart(cur, input, o, e, b);
    }
  }

  lemma {:induction false} RunsStart(cur: seq<Entry>, input: seq<Entry>, o: nat, e: nat, b: nat)
    ensures RunsSorted(cur, input, o, e, b) ==> |cur| == |input| && o <= |input|
    decreases b
  {
  }

  // Writing behind the runs does not disturb them.
  lemma {:induction false} RunsStay(cur: seq<Entry>, cur': seq<Entry>, input: seq<Entry>, o: nat, e: nat, c: nat)
    requires RunsSorted(cur, input, o, e, c) && |cur'| == |cur|
    requires o + Len(e, c) <= |cur| && Cut(cur', o, Len(e, c)) == Cut(cur, o, Len(e, c))
    ensures RunsSorted(cur', input, o, e, c)
    decreases c
  {
    if c > 0 {
      CutsAgree(cur, cur', o, e, Len(e, c - 1));
      RunsStay(cur, cur', input, o + e, e, c - 1);
    }
  }

  lemma CutsAgree(s: seq<Entry>, t: seq<Entry>, o: nat, a: nat, b: nat)
    requires o + (a + b) <= |s| == |t| && Cut(s, o, a + b) == Cut(t, o, a + b)
    ensures Cut(s, o, a) == Cut(t, o, a) && Cut(s, o + a, b) == Cut(t, o + a, b)
  {
    assert Cut(s, o, a) == Cut(s, o, a + b)[..a] && Cut(t, o, a) == Cut(t, o, a + b)[..a];
    assert Cut(s, o + a, b) == Cut(s, o, a + b)[a..] && Cut(t, o + a, b) == Cut(t, o, a + b)[a..];
  }

  lemma PatchCuts(s: seq<Entry>, o: nat, row: seq<Entry>)
    requires o + |row| <= |s|
    ensures Cut(Patch(s, o, row), o, |row|) == row && Cut(Patch(s, o, row), 0, o) == Cut(s, 0, o)
  {
  }

  lemma RunsAppend(cur: seq<Entry>, input: seq<Entry>, o: nat, n: nat, k: nat, row: seq<Entry>)
    requires RunsSorted(cur, input, 0, n, k) && o == Len(n, k) && o + n <= |input| == |cur|
    requires |row| == n && Ordered(row, Cut(input, o, n))
    ensures RunsSorted(Patch(cur, o, row), input, 0, n, k + 1)
  {
    PatchCuts(cur, o, row);
    RunsStay(cur, Patch(cur, o, row), input, 0, n, k);
    LastRun(Patch(cur, o, row), input, o, n, k);
  }

  lemma LastRun(cur: seq<Entry>, input: seq<Entry>, o: nat, n: nat, k: nat)
    requires RunsSorted(cur, input, 0, n, k) && o == Len(n, k) && Sorts(cur, input, o, n)
    ensures RunsSorted(cur, input, 0, n, k + 1)
  {
    assert RunsSorted(cur, input, o + n, n, 0);
    RunsSplit(cur, input, 0, n, k, 1);
  }

  // Sort32: sorts each run of 32.
  method Sort32(dst: array<Entry>, src: array<Entry>, repeats: nat)
    requires dst != src && dst.Length == src.Length && repeats * BLOCK_BYTES <= src.Length
    modifies dst
    ensures RunsSorted(dst[..], src[..], 0, BLOCK_BYTES, repeats)
  {
    for k := 0 to repeats
      invariant RunsSorted(dst[..], src[..], 0, BLOCK_BYTES, k)
    {
      ghost var before := dst[..];
      var row := Sort(Cut(src[..], k * BLOCK_BYTES, BLOCK_BYTES));
      DataCopy(dst, k * BLOCK_BYTES, row);
      LenIs(BLOCK_BYTES, k);
      RunsAppend(before, src[..], k * BLOCK_BYTES, BLOCK_BYTES, k, row);
    }
  }

  // One iteration of the merge instruction: the next `lists` runs of s become one.
  method GroupRow(s: seq<Entry>, ghost input: seq<Entry>, o: nat, e: nat, lists: nat, ghost n: nat, ghost rest: nat)
    returns (row: seq<Entry>)
    requires n == Len(e, lists) && RunsSorted(s, input, o, e, lists + rest)
    ensures o + n <= |input| == |s| && |row| == n && Ordered(row, Cut(input, o, n))
    ensures RunsSorted(s, input, o + n, e, rest)
  {
    RunsSplit(s, input, o, e, lists, rest);
    GroupSorts(s, input, o, e, lists);
    row := Mrg(Runs(s, o, e, lists), false);
  }

  // MrgSort with `lists` runs of length e at a time, `repeats` times over.
  method MergeLevel(dst: array<Entry>, src: array<Entry>, ghost input: seq<Entry>, e: nat, lists: nat, repeats: nat,
                    n: nat, ghost all: nat)
    requires dst != src && dst.Length == src.Length == |input|
    requires n == Len(e, lists) && all == Len(lists, repeats) && RunsSorted(src[..], input, 0, e, all)
    modifies dst
    ensures RunsSorted(dst[..], input, 0, n, repeats)
  {
    var o: nat := 0;
    ghost var left: nat, s, d := all, src[..], dst[..];
    for k := 0 to repeats
      invariant o == Len(n, k) && left == Len(lists, repeats - k)
      invariant src[..] == s && RunsSorted(s, input, o, e, left)
      invariant dst[..] == d && RunsSorted(d, input, 0, n, k)
    {
      LenBack(lists, repeats - k);
      LenOn(n, k);
      var row := GroupRow(src[..], input, o, e, lists, n, left - lists);
      DataCopy(dst, o, row);
      RunsAppend(d, input, o, n, k, row);
      d := Patch(d, o, row);
      o, left := o + n, left - lists;
    }
  }

  lemma LenOn(e: nat, c: nat)
    ensures Len(e, c + 1) == Len(e, c) + e
  {
  }

  lemma LenBack(e: nat, c: nat)
    requires c > 0
    ensures Len(e, c) - e == Len(e, c - 1)
  {
  }

  // How many of g runs of length e reach the final run: of more than four runs, those that fill up
  // groups of four are carried on and the others dropped.
  function Kept(g: nat, e: nat): nat {
    if g <= 4 then g * e else Kept(g / 4, 4 * e)
  }

  // The lengths that are sorted to the end: four runs at most, or groups of four to any depth.
  predicate Supported(g: nat) {
    if g <= 4 then g > 0 else g % 4 == 0 && Supported(g / 4)
  }

  // The buffer that holds the runs after i merges.
  function Current(src: array<Entry>, tmp: array<Entry>, i: nat): array<Entry> {
    if i % 2 == 0 then tmp else src
  }

  // cur holds g sorted runs of length e, of which `kept` places will reach the end.
  ghost predicate Holds(cur: seq<Entry>, input: seq<Entry>, e: nat, g: nat, kept: nat) {
    g > 0 && Kept(g, e) == kept && RunsSorted(cur, input, 0, e, g)
  }

  lemma OneRun(cur: seq<Entry>, input: seq<Entry>, e: nat, kept: nat)
    requires Holds(cur, input, e, 1, kept)
    ensures Sorts(cur, input, 0, kept)
  {
  }

  // The merge of the last runs, two, three or four of them.
  method LastLevel(dst: array<Entry>, src: array<Entry>, ghost input: seq<Entry>, mrgElements: nat, mrgGroups: nat,
                   ghost kept: nat)
    requires dst != src && dst.Length == src.Length == |input| && mrgGroups <= 4
    requires Holds(src[..], input, mrgElements, mrgGroups, kept)
    modifies dst
    ensures Sorts(dst[..], input, 0, kept)
  {
    LenIs(mrgElements, mrgGroups);
    LenIs(mrgGroups, 1);
    MergeLevel(dst, src, input, mrgElements, mrgGroups, 1, mrgGroups * mrgElements, mrgGroups);
  }

  // A merge of groups of four; a remainder of fewer than four runs is left out.
  method NextLevel(dst: array<Entry>, src: array<Entry>, ghost input: seq<Entry>, mrgElements: nat, mrgGroups: nat,
                   ghost kept: nat)
    requires dst != src && dst.Length == src.Length == |input| && mrgGroups > 4
    requires Holds(src[..], input, mrgElements, mrgGroups, kept)
    modifies dst
    ensures Holds(dst[..], input, mrgElements * 4, mrgGroups / 4, kept)
  {
    var repeats: nat := mrgGroups / 4;
    RunsSplit(src[..], input, 0, mrgElements, repeats * 4, mrgGroups % 4);
    LenIs(mrgElements, 4);
    LenIs(4, repeats);
    MergeLevel(dst, src, input, mrgElements, 4, repeats, mrgElements * 4, repeats * 4);
  }

  // The merges, from one buffer to the other and back; i counts them.
  method MergeAll(src: array<Entry>, tmp: array<Entry>, ghost input: seq<Entry>, sort32Repeats: nat, ghost kept: nat)
    returns (i: nat)
    requires src != tmp && src.Length == tmp.Length == |input|
    requires Holds(tmp[..], input, BLOCK_BYTES, sort32Repeats, kept)
    modifies src, tmp
    ensures Sorts(Current(src, tmp, i)[..], input, 0, kept)
  {
    var mrgGroups: nat, mrgElements: nat := sort32Repeats, BLOCK_BYTES;
    i := 0;
    while true
      invariant Holds(Current(src, tmp, i)[..], input, mrgElements, mrgGroups, kept)
      decreases mrgGroups
    {
      var srcTensor, dstTensor := Current(src, tmp, i), Current(src, tmp, i + 1);
      if mrgGroups <= 4 {
        if mrgGroups == 1 {
          OneRun(srcTensor[..], input, mrgElements, kept);
        } else {
          LastLevel(dstTensor, srcTensor, input, mrgElements, mrgGroups, kept);
          i := i + 1;
        }
        break;
      } else {
        NextLevel(dstTensor, srcTensor, input, mrgElements, mrgGroups, kept);
        i := i + 1;
        mrgElements := mrgElements * 4;
        mrgGroups := mrgGroups / 4;
      }
    }
  }

  // A prefix of the input ends up sorted in src, wherever the last merge left it.
  method SortAll(src: array<Entry>, tmp: array<Entry>, logitsNum: nat)
    requires src != tmp && src.Length == tmp.Length == logitsNum && logitsNum >= BLOCK_BYTES
    modifies src, tmp
    ensures Sorts(src[..], old(src[..]), 0, Kept(logitsNum / BLOCK_BYTES, BLOCK_BYTES))
  {
    ghost var input := src[..];
    var sort32Repeats: nat := logitsNum / BLOCK_BYTES;
    ghost var kept := Kept(sort32Repeats, BLOCK_BYTES);
    Sort32(tmp, src, sort32Repeats);
    var i := MergeAll(src, tmp, input, sort32Repeats, kept);
    CopyBack(src, tmp, i, input, kept);
  }

  // The result belongs in src.
  method CopyBack(src: array<Entry>, tmp: array<Entry>, i: nat, ghost input: seq<Entry>, ghost m: nat)
    requires src != tmp && src.Length == tmp.Length && Sorts(Current(src, tmp, i)[..], input, 0, m)
    modifies src
    ensures Sorts(src[..], input, 0, m)
  {
    if i % 2 == 0 {
      PatchWhole(src[..], tmp[..]);
      DataCopy(src, 0, tmp[..]);
    }
  }

  lemma PatchWhole(s: seq<Entry>, row: seq<Entry>)
    requires |s| == |row|
    ensures Patch(s, 0, row) == row
  {
  }

  // Nothing is dropped exactly for the supported numbers of runs.
  lemma {:induction false} KeptExactlyWhenSupported(g: nat, e: nat)
    requires g > 0 && e > 0
    ensures 0 < Kept(g, e) <= g * e
    ensures Kept(g, e) == g * e <==> Supported(g)
  {
    if g > 4 {
      KeptExactlyWhenSupported(g / 4, 4 * e);
      var rest := g % 4;
      assert g * e == g / 4 * (4 * e) + rest * e;
      assert rest > 0 ==> rest * e > 0;
    } else {
      assert g * e > 0;
    }
  }

  function Pow4(a: nat): (r: nat)
    ensures r > 0
  {
    if a == 0 then 1 else 4 * Pow4(a - 1)
  }

  ghost predicate IsCTimesPow4(g: nat, c: nat, a: nat) {
    1 <= c <= 4 && g == c * Pow4(a)
  }

  lemma {:induction false} CTimesPow4IsSupported(g: nat, c: nat, a: nat)
    requires IsCTimesPow4(g, c, a)
    ensures Supported(g)
    decreases a
  {
    if a > 0 {
      assert g == 4 * (c * Pow4(a - 1));
      assert IsCTimesPow4(g / 4, c, a - 1);
      CTimesPow4IsSupported(g / 4, c, a - 1);
      assert c * Pow4(a - 1) >= 1;
    }
  }

  lemma {:induction false} SupportedIsCTimesPow4(g: nat) returns (c: nat, a: nat)
    requires Supported(g)
    ensures IsCTimesPow4(g, c, a)
  {
    if g <= 4 {
      c, a := g, 0;
    } else {
      c, a := SupportedIsCTimesPow4(g / 4);
      assert c * Pow4(a + 1) == 4 * (c * Pow4(a));
      a := a + 1;
    }
  }

  // The supported numbers of runs are those of the form c * 4^a with c in 1 .. 4.
  lemma SupportedForm(g: nat)
    ensures Supported(g) <==> exists c: nat, a: nat :: IsCTimesPow4(g, c, a)
  {
    if Supported(g) {
      var c, a := SupportedIsCTimesPow4(g);
    }
    forall c: nat, a: nat | IsCTimesPow4(g, c, a)
      ensures Supported(g)
    {
      CTimesPow4IsSupported(g, c, a);
    }
  }

  // What SortAll promises about its buffer.
  ghost predicate Outcome(input: seq<Entry>, out: seq<Entry>) {
    Sorts(out, input, 0, Kept(|input| / BLOCK_BYTES, BLOCK_BYTES))
  }

  predicate SortsLength(n: nat) {
    n % BLOCK_BYTES == 0 && Supported(n / BLOCK_BYTES)
  }

  lemma KeptOfLength(n: nat)
    requires n >= BLOCK_BYTES
    ensures var m := Kept(n / BLOCK_BYTES, BLOCK_BYTES);
            if SortsLength(n) then m == n else 0 < m < n
  {
    KeptExactlyWhenSupported(n / BLOCK_BYTES, BLOCK_BYTES);
    assert n == n / BLOCK_BYTES * BLOCK_BYTES + n % BLOCK_BYTES;
  }

  lemma CutWhole(s: seq<Entry>)
    ensures Cut(s, 0, |s|) == s
  {
  }

  lemma RightForSupported(input: seq<Entry>, out: seq<Entry>)
    requires SortsLength(|input|) && Outcome(input, out)
    ensures out == Sort(input)
    ensures Sorted(out) && multiset(out) == multiset(input)
  {
    assert |input| >= BLOCK_BYTES;
    KeptOfLength(|input|);
    CutWhole(out);
    CutWhole(input);
    SortSorts(input);
  }

  // For every other length the key that is ranked first is missed when it comes last.
  lemma WrongOtherwise(n: nat) returns (input: seq<Entry>)
    requires n >= BLOCK_BYTES && !SortsLength(n)
    ensures |input| == n && forall out :: Outcome(input, out) ==> out != Sort(input)
  {
    var best := Key(0, 0);
    input := Pads(n - 1) + [best];
    var m := Kept(n / BLOCK_BYTES, BLOCK_BYTES);
    KeptOfLength(n);
    SortSorts(input);
    SortSorts(Cut(input, 0, m));
    assert best in multiset(input);
    assert best in Sort(input);
    HeadIsBest(Sort(input), best);
    forall out | Outcome(input, out)
      ensures out != Sort(input)
    {
      assert Cut(out, 0, m)[0] in multiset(Cut(input, 0, m));
    }
  }

  lemma HeadIsBest(s: seq<Entry>, x: Entry)
    requires Sorted(s) && x in s && x.Key?
    ensures s[0].Key?
  {
    var i :| 0 <= i < |s| && s[i] == x;
    if i > 0 {
      assert Ge(s[0], s[i]);
    }
  }

  // SortAll sorts every input of a length exactly when the length is 32 * c * 4^a.
  lemma RightExactlyWhenSupported(n: nat)
    requires n >= BLOCK_BYTES
    ensures SortsLength(n) <==> forall input, out :: |input| == n && Outcome(input, out) ==> out == Sort(input)
  {
    if SortsLength(n) {
      forall input, out | |input| == n && Outcome(input, out)
        ensures out == Sort(input)
      {
        RightForSupported(input, out);
      }
    } else {
      var input := WrongOtherwise(n);
      var m := Kept(n / BLOCK_BYTES, BLOCK_BYTES);
      KeptOfLength(n);
      var out := Sort(Cut(input, 0, m)) + Pads(n - m);
      assert Cut(out, 0, m) == Sort(Cut(input, 0, m));
      assert Outcome(input, out);
    }
  }

  lemma DocumentedLengths(n: nat)
    requires n in {128, 256, 384, 512, 1024, 2048}
    ensures SortsLength(n)
  {
    assert IsCTimesPow4(4, 1, 1) && IsCTimesPow4(8, 2, 1) && IsCTimesPow4(12, 3, 1) && IsCTimesPow4(16, 4, 1);
    assert Pow4(2) == 16;
    assert IsCTimesPow4(32, 2, 2) && IsCTimesPow4(64, 4, 2);
    SupportedForm(n / BLOCK_BYTES);
  }

  // The call for one block of scores: both buffers hold the block's entries and nothing else.
  method SortBlock(block: seq<Entry>) returns (sorted: seq<Entry>)
    requires SortsLength(|block|) && |block| >= BLOCK_BYTES
    ensures sorted == Sort(block)
  {
    var src := new Entry[|block|](i requires 0 <= i < |block| => block[i]);
    var tmp := new Entry[|block|](i requires 0 <= i < |block| => block[i]);
    assert src[..] == block;
    SortAll(src, tmp, |block|);
    RightForSupported(block, src[..]);
    sorted := src[..];
  }
}
