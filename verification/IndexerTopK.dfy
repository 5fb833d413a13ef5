/** One query row from end to end: partial lists on every core, and their merge across cores. */
module IndexerTopK {
  import opened Arith
  import opened BlockSpace
  import opened TopK
  import opened MrgSort
  import opened LIVector

  // What a row leaves behind on a core that holds its key blocks p .. q - 1.
  ghost function PieceEmit(score: Scores, len: nat, p: nat, q: nat): Emit {
    var v := CeilDiv(len, S2_BASE);
    if v <= p then Nothing
    else EmitOf(Top(BASE_TOPK, Seen(score, len, p, Min(v, q))), p, v <= q, true)
  }

  // Key blocks p .. q - 1 of tile (b, g), as one core's vector unit meets them; `end` is where the
  // core's whole range ends, and loop0 how many blocks the core has done before.
  method RunPiece(lane: RowLane, score: Scores, len: nat, b: nat, g: nat, p: nat, q: nat, loop0: nat,
                  actS1Size: nat, end: Block) returns (e: Emit)
    requires lane.Valid() && p < q && len > 0
    requires if loop0 == 0 then lane.merged == [] && lane.waiting == [] else p == 0
    requires forall j :: p <= j < q - 1 ==> Block(b, g, j) != end
    requires q * S2_BASE < len ==> end == Block(b, g, q - 1)
    modifies lane
    ensures lane.Valid() && e == PieceEmit(score, len, p, q)
  {
    e := Nothing;
    ghost var v := CeilDiv(len, S2_BASE);
    for s2 := p to q
      invariant lane.Valid()
      invariant s2 > p && s2 < q ==> lane.blockS2StartIdx == p
      invariant p < s2 < q && s2 * S2_BASE < len ==> lane.Running(score, len, p, s2 - p, actS1Size)
      invariant s2 == p ==> if loop0 == 0 then lane.merged == [] && lane.waiting == [] else p == 0
      invariant e == if s2 == q || v <= s2 then (if s2 == p then Nothing else PieceEmit(score, len, p, s2)) else Nothing
    {
      var info := RunInfo(loop0 + (s2 - p), s2, actS1Size, s2 == q - 1, Block(b, g, s2) == end);
      CeilDivGalois(len, S2_BASE, s2);
      CeilDivGalois(len, S2_BASE, s2 + 1);
      var e' := lane.ProcessVec(info, score, len, p);
      if e' != Nothing {
        e := e';
      }
    }
  }

  // A partial list in the workspace; needFd is 1 when it takes part in a merge.
  datatype Slot = Slot(needFd: int, isS2End: bool, list: seq<Entry>)

  const EMPTY_SLOT := Slot(-1, false, [])

  ghost predicate SlotOk(x: Slot) {
    x.needFd == 1 ==> |x.list| == BASE_TOPK && Sorted(x.list)
  }

  // The lists of cores c .. e - 1, one after another.
  ghost function Lists(heads: seq<Slot>, c: nat, e: nat): seq<Entry>
    requires e <= |heads|
  {
    if e <= c then [] else Lists(heads, c, e - 1) + heads[e - 1].list
  }

  // Cores c + 1 .. e hold head pieces, the last of them the one where the row ends.
  ghost predicate Chain(heads: seq<Slot>, c: nat, e: nat) {
    && c < e < |heads|
    && forall d :: c < d <= e ==> heads[d].needFd == 1 && SlotOk(heads[d]) && (heads[d].isS2End <==> d == e)
  }

  // ProcessLD for one row: starts from core c's tail list and follows the next cores' head lists.
  method ProcessLD(c: nat, heads: seq<Slot>, tail: Slot, ghost e: nat) returns (list: seq<Entry>)
    requires tail.needFd == 1 && SlotOk(tail) && Chain(heads, c, e)
    ensures list == Top(BASE_TOPK, tail.list + Lists(heads, c + 1, e + 1))
  {
    var lists := [tail.list];
    var tmpCubeId := c + 1;
    var needFd := heads[tmpCubeId].needFd;
    var isS2End := heads[tmpCubeId].isS2End;
    ghost var done := c + 1;
    OneList(tail.list);
    assert tail.list + Lists(heads, c + 1, c + 1) == tail.list;
    while needFd == 1
      invariant c < tmpCubeId <= e
      invariant needFd == heads[tmpCubeId].needFd && isS2End == heads[tmpCubeId].isS2End
      invariant done == tmpCubeId
      invariant Gathered(lists, tail.list + Lists(heads, c + 1, done))
      decreases e - tmpCubeId
    {
      GatherOne(lists, tail.list + Lists(heads, c + 1, done), heads[tmpCubeId].list);
      lists := lists + [heads[tmpCubeId].list];
      done := done + 1;
      assert tail.list + Lists(heads, c + 1, done)
          == tail.list + Lists(heads, c + 1, done - 1) + heads[tmpCubeId].list;
      if |lists| == 4 {
        lists := MergeLists(lists, tail.list + Lists(heads, c + 1, done));
      }
      if isS2End {
        break;
      }
      tmpCubeId := tmpCubeId + 1;
      needFd := heads[tmpCubeId].needFd;
      isS2End := heads[tmpCubeId].isS2End;
    }
    if |lists| != 1 {
      lists := MergeLists(lists, tail.list + Lists(heads, c + 1, e + 1));
    }
    assert lists == [lists[0]];
    OneList(lists[0]);
    TopOfTop(lists[0], tail.list + Lists(heads, c + 1, e + 1));
    list := lists[0];
  }

  // Fewer than four full-length lists that stand for `all`.
  ghost predicate Gathered(lists: seq<seq<Entry>>, all: seq<Entry>) {
    && 1 <= |lists| <= 3
    && FullLists(lists)
    && Top(BASE_TOPK, Flat(lists)) == Top(BASE_TOPK, all)
  }

  ghost predicate FullLists(lists: seq<seq<Entry>>) {
    AllSorted(lists) && forall i :: 0 <= i < |lists| ==> |lists[i]| == BASE_TOPK
  }

  // MrgSort of up to four lists, stopping when one is exhausted; the first list's worth is kept.
  method MergeLists(lists: seq<seq<Entry>>, ghost all: seq<Entry>) returns (r: seq<seq<Entry>>)
    requires lists != [] && FullLists(lists)
    requires Top(BASE_TOPK, Flat(lists)) == Top(BASE_TOPK, all)
    ensures |r| == 1 && Gathered(r, all)
  {
    SuspendedHoldsTop(lists, BASE_TOPK);
    TopIsSorted(BASE_TOPK, all);
    TopTwice(all);
    OneList(Top(BASE_TOPK, all));
    var tmp := Mrg(lists, true);
    r := [tmp[..BASE_TOPK]];
  }

  lemma OneList(a: seq<Entry>)
    ensures Flat([a]) == a
  {
    assert [a][1..] == [];
    assert Flat([a]) == a + [];
  }

  lemma TopTwice(all: seq<Entry>)
    ensures Top(BASE_TOPK, Top(BASE_TOPK, all)) == Top(BASE_TOPK, all)
  {
    TopAbsorbs(BASE_TOPK, all, []);
    assert Top(BASE_TOPK, all) + [] == Top(BASE_TOPK, all);
    assert all + [] == all;
  }

  lemma TopOfTop(a: seq<Entry>, all: seq<Entry>)
    requires |a| == BASE_TOPK && Sorted(a) && Top(BASE_TOPK, a) == Top(BASE_TOPK, all)
    ensures a == Top(BASE_TOPK, all)
  {
    SortIs(a, a);
    TopOfLong(BASE_TOPK, a);
  }

  lemma GatherOne(lists: seq<seq<Entry>>, all: seq<Entry>, x: seq<Entry>)
    requires Gathered(lists, all) && |x| == BASE_TOPK && Sorted(x)
    ensures FullLists(lists + [x])
    ensures Top(BASE_TOPK, Flat(lists + [x])) == Top(BASE_TOPK, all + x)
  {
    FlatSnoc(lists, x);
    TopAbsorbs(BASE_TOPK, Flat(lists), x);
    TopAbsorbs(BASE_TOPK, all, x);
  }

  // ----- the row across all cores -----

  // The keys a row may see, each with its score.
  function Keys(score: Scores, len: nat): (r: seq<Entry>)
    ensures |r| == len
  {
    seq(len, i requires 0 <= i => Key(score(i), i))
  }

  // Each of the first len keys stands in the collection once, with its own score, and nothing else does.
  lemma {:induction false} KeysOnce(score: Scores, len: nat, x: Entry)
    ensures multiset(Keys(score, len))[x] == if x.Key? && x.idx < len && x.score == score(x.idx) then 1 else 0
  {
    if len > 0 {
      KeysOnce(score, len - 1, x);
      assert Keys(score, len) == Keys(score, len - 1) + [Key(score(len - 1), len - 1)];
    }
  }

  // The k best of the first len keys: keys of the row with their scores, best first and earlier
  // positions first among equals, and whatever is missing ranks behind all of them.
  lemma TopOfKeys(score: Scores, len: nat, k: nat, out: seq<Entry>)
    requires out == Top(k, Keys(score, len))
    ensures |out| == k
    ensures forall p :: 0 <= p < |out| && out[p].Key? ==> out[p].idx < len && out[p].score == score(out[p].idx)
    ensures forall p, q :: 0 <= p < q < |out| && out[q].Key? ==>
              && out[p].Key?
              && (out[p].score > out[q].score || (out[p].score == out[q].score && out[p].idx < out[q].idx))
    ensures forall i, p :: 0 <= i < len && Key(score(i), i) !in out && 0 <= p < |out| ==>
              out[p].Key? && (out[p].score > score(i) || (out[p].score == score(i) && out[p].idx < i))
  {
    forall p | 0 <= p < |out| && out[p].Key?
      ensures out[p].idx < len && out[p].score == score(out[p].idx)
    {
      KeptIsKey(score, len, k, out, out[p]);
    }
    forall p, q | 0 <= p < q < |out| && out[q].Key?
      ensures out[p].Key?
      ensures out[p].score > out[q].score || (out[p].score == out[q].score && out[p].idx < out[q].idx)
    {
      KeptInOrder(score, len, k, out, p, q);
    }
    forall i, p | 0 <= i < len && Key(score(i), i) !in out && 0 <= p < |out|
      ensures out[p].Key? && (out[p].score > score(i) || (out[p].score == score(i) && out[p].idx < i))
    {
      KeysOnce(score, len, Key(score(i), i));
      TopIsBest(k, Keys(score, len), Key(score(i), i));
    }
  }

  lemma KeptIsKey(score: Scores, len: nat, k: nat, out: seq<Entry>, x: Entry)
    requires out == Top(k, Keys(score, len)) && x.Key? && x in out
    ensures x.idx < len && x.score == score(x.idx)
  {
    KeysOnce(score, len, x);
    TopComesFrom(k, Keys(score, len), x);
    assert multiset(out)[x] > 0;
  }

  lemma KeptInOrder(score: Scores, len: nat, k: nat, out: seq<Entry>, p: nat, q: nat)
    requires out == Top(k, Keys(score, len)) && p < q < |out| && out[q].Key?
    ensures out[p].Key?
    ensures out[p].score > out[q].score || (out[p].score == out[q].score && out[p].idx < out[q].idx)
  {
    TopIsSorted(k, Keys(score, len));
    assert Ge(out[p], out[q]);
    KeysOnce(score, len, out[q]);
    TopComesFrom(k, Keys(score, len), out[q]);
    TwoPlaces(out, p, q);
  }

  lemma TwoPlaces(s: seq<Entry>, p: nat, q: nat)
    requires p < q < |s|
    ensures s[p] == s[q] ==> multiset(s)[s[q]] >= 2
  {
    assert s == s[..q] + s[q..];
    assert s[p] in s[..q] && s[q] in s[q..];
  }

  // All of a row's key blocks hold exactly its visible keys.
  lemma {:induction false} SeenIsKeys(score: Scores, len: nat, q: nat)
    requires q > 0 ==> (q - 1) * S2_BASE < len
    ensures Seen(score, len, 0, q) ==
            if q * S2_BASE <= len then Keys(score, q * S2_BASE) else Keys(score, len) + Pads(q * S2_BASE - len)
  {
    if q > 0 {
      SeenIsKeys(score, len, q - 1);
      if q * S2_BASE <= len {
        assert Keys(score, (q - 1) * S2_BASE) + BlockEntries(score, len, q - 1) == Keys(score, q * S2_BASE);
      } else {
        assert Keys(score, (q - 1) * S2_BASE) + BlockEntries(score, len, q - 1)
            == Keys(score, len) + Pads(q * S2_BASE - len);
      }
    }
  }

  lemma TopOfAllBlocks(score: Scores, len: nat)
    ensures Top(BASE_TOPK, Seen(score, len, 0, CeilDiv(len, S2_BASE))) == Top(BASE_TOPK, Keys(score, len))
  {
    var v := CeilDiv(len, S2_BASE);
    CeilDivGalois(len, S2_BASE, v);
    if v > 0 {
      CeilDivGalois(len, S2_BASE, v - 1);
    }
    SeenIsKeys(score, len, v);
    if v * S2_BASE > len {
      TopIgnoresPads(BASE_TOPK, Keys(score, len), v * S2_BASE - len);
    }
  }

  // Cutting a longer result short gives the shorter result.
  lemma TopShorter(k: nat, m: nat, s: seq<Entry>)
    requires m <= k
    ensures Take(Top(k, s), m) == Top(m, s)
  {
  }

  lemma {:induction false} SeenJoins(score: Scores, len: int, p: nat, f: nat, q: nat)
    requires p <= f <= q
    ensures Seen(score, len, p, f) + Seen(score, len, f, q) == Seen(score, len, p, q)
  {
    if f < q {
      SeenJoins(score, len, p, f, q - 1);
      assert Seen(score, len, p, f) + Seen(score, len, f, q - 1) + BlockEntries(score, len, q - 1)
          == Seen(score, len, p, f) + (Seen(score, len, f, q - 1) + BlockEntries(score, len, q - 1));
    } else {
      assert Seen(score, len, p, f) + [] == Seen(score, len, p, f);
    }
  }
}
