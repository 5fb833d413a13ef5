/** The lightning indexer's promise, for every query row and every way of sharing the work. */
module IndexerRow {
  import opened Arith
  import opened BlockSpace
  import opened BlockOrder
  import opened LightningIndexer
  import opened IndexerSchedule
  import opened TopK
  import opened LIVector
  import opened IndexerTopK

  // What core c leaves behind for a row of tile (b, g) that sees `len` keys.
  ghost function CoreEmit(s: Shape, r: seq<nat>, c: nat, b: nat, g: nat, score: Scores, len: nat): Emit
    requires s.gSize > 0 && c < |r| - 1 && b < |s.batches| && g < s.Tiles(b)
  {
    if Holds(s, r, c, b, g) then PieceEmit(score, len, Piece(s, r, c, b, g).0, Piece(s, r, c, b, g).1) else Nothing
  }

  function HeadSlot(e: Emit): Slot {
    if e.Head? then Slot(1, e.isS2End, e.list) else EMPTY_SLOT
  }

  function TailSlot(e: Emit): Slot {
    if e.Tail? then Slot(1, e.isS2End, e.list) else EMPTY_SLOT
  }

  // The lanes before the row's tile is met: only a core that starts its range there has a fresh lane.
  ghost predicate LanesReady(s: Shape, r: seq<nat>, b: nat, g: nat, lanes: seq<RowLane>)
    requires s.gSize > 0 && b < |s.batches| && g < s.Tiles(b)
    reads lanes
  {
    && |lanes| == |r| - 1
    && (forall c, d :: 0 <= c < d < |lanes| ==> lanes[c] != lanes[d])
    && forall c :: 0 <= c < |lanes| ==> LaneReady(s.Before(b, g), r[c], lanes[c])
  }

  ghost predicate LaneReady(at: nat, lo: nat, lane: RowLane)
    reads lane
  {
    lane.Valid() && (at <= lo ==> lane.merged == [] && lane.waiting == [])
  }

  // Core c meets its piece of the row's tile.
  method RunCore(s: Shape, r: seq<nat>, infos: seq<SplitCoreInfo>, c: nat, b: nat, g: nat, lane: RowLane,
                 score: Scores, len: nat) returns (e: Emit)
    requires s.Valid() && Boundaries(s, r) && AllSplit(s, r, infos) && c < |infos|
    requires b < |s.batches| && g < s.Tiles(b) && 0 < len && CeilDiv(len, S2_BASE) <= s.KeyBlocks(b, g)
    requires LaneReady(s.Before(b, g), r[c], lane)
    modifies lane
    ensures e == CoreEmit(s, r, c, b, g, score, len)
  {
    e := Nothing;
    if Holds(s, r, c, b, g) {
      var (p, q) := Piece(s, r, c, b, g);
      PieceEnds(s, r, infos, c, b, g, len);
      e := RunPiece(lane, score, len, b, g, p, q, s.Before(b, g) + p - r[c], s.batches[b].s1,
                    Block(infos[c].bN2End, infos[c].gS1End, infos[c].s2End));
    }
  }

  // Every core meets its piece of the row's tile.
  method RunCores(s: Shape, r: seq<nat>, infos: seq<SplitCoreInfo>, b: nat, g: nat, lanes: seq<RowLane>,
                  score: Scores, len: nat) returns (emits: seq<Emit>)
    requires s.Valid() && Boundaries(s, r) && AllSplit(s, r, infos)
    requires b < |s.batches| && g < s.Tiles(b) && 0 < len && CeilDiv(len, S2_BASE) <= s.KeyBlocks(b, g)
    requires LanesReady(s, r, b, g, lanes)
    modifies lanes
    ensures |emits| == |infos|
    ensures forall c :: 0 <= c < |emits| ==> emits[c] == CoreEmit(s, r, c, b, g, score, len)
  {
    emits := [];
    for c := 0 to |infos|
      invariant |emits| == c
      invariant forall d :: 0 <= d < c ==> emits[d] == CoreEmit(s, r, d, b, g, score, len)
      invariant forall d :: c <= d < |lanes| ==> LaneReady(s.Before(b, g), r[d], lanes[d])
    {
      var e := RunCore(s, r, infos, c, b, g, lanes[c], score, len);
      emits := emits + [e];
    }
  }

  // Inside its piece of a tile a core does not meet the end of its range before the piece's last
  // block, and if the row goes on past the piece the range ends with it.
  lemma PieceEnds(s: Shape, r: seq<nat>, infos: seq<SplitCoreInfo>, c: nat, b: nat, g: nat, len: nat)
    requires s.Valid() && Boundaries(s, r) && AllSplit(s, r, infos) && c < |infos|
    requires b < |s.batches| && g < s.Tiles(b) && Holds(s, r, c, b, g)
    requires CeilDiv(len, S2_BASE) <= s.KeyBlocks(b, g)
    ensures var (p, q) := Piece(s, r, c, b, g);
            var end := Block(infos[c].bN2End, infos[c].gS1End, infos[c].s2End);
            && (forall j :: p <= j < q - 1 ==> Block(b, g, j) != end)
            && (q * S2_BASE < len ==> end == Block(b, g, q - 1))
  {
    var (p, q) := Piece(s, r, c, b, g);
    var last := s.All()[r[c + 1] - 1];
    UptoHoldsBlocks(s, |s.batches|, 0, r[c + 1] - 1);
    ZeroLengthBatch(s, b);
    LastCoreEndIsIdle(s, r, infos, c);
    CeilDivGalois(len, S2_BASE, q);
    if q < s.KeyBlocks(b, g) {
      BlockAt(s, Block(b, g, q - 1));
      BlockAt(s, Block(b, g, q));
    }
  }

  // When a range's end is moved to the last batch, that batch has no work.
  lemma LastCoreEndIsIdle(s: Shape, r: seq<nat>, infos: seq<SplitCoreInfo>, c: nat)
    requires s.Valid() && Boundaries(s, r) && AllSplit(s, r, infos) && c < |infos|
    ensures var last := s.All()[r[c + 1] - 1];
            var end := Block(infos[c].bN2End, infos[c].gS1End, infos[c].s2End);
            end == last || (r[c + 1] == Total(s) && end.b < |s.batches| && s.ZeroLength(end.b))
  {
    var last := s.All()[r[c + 1] - 1];
    UptoHoldsBlocks(s, |s.batches|, 0, r[c + 1] - 1);
    if infos[c].bN2End != last.b {
      var z := infos[c].bN2End;
      UptoPrefix(s, last.b, last.g + 1, z, 0);
      UptoPrefix(s, z, 0, |s.batches|, 0);
      ZeroLengthBatch(s, z);
      if !s.ZeroLength(z) {
        UptoPrefix(s, z, 1, |s.batches|, 0);
      }
    }
  }

  // The cores that work on a row: from `lead`, which holds its first block, to `tip`, which holds its
  // last visible one.
  ghost predicate Span(s: Shape, r: seq<nat>, b: nat, g: nat, len: nat, lead: nat, tip: nat)
    requires s.gSize > 0 && b < |s.batches| && g < s.Tiles(b)
  {
    var at := s.Before(b, g);
    var v := CeilDiv(len, S2_BASE);
    && 0 < v && lead <= tip < |r| - 1
    && r[lead] <= at < r[lead + 1]
    && r[tip] < at + v <= r[tip + 1]
    && v <= s.KeyBlocks(b, g)
  }

  lemma FindSpan(s: Shape, r: seq<nat>, b: nat, g: nat, len: nat) returns (lead: nat, tip: nat)
    requires s.Valid() && Boundaries(s, r) && b < |s.batches| && g < s.Tiles(b)
    requires 0 < len && CeilDiv(len, S2_BASE) <= s.KeyBlocks(b, g)
    ensures Span(s, r, b, g, len, lead, tip)
  {
    var v := CeilDiv(len, S2_BASE);
    CeilDivGalois(len, S2_BASE, 0);
    BlockAt(s, Block(b, g, v - 1));
    lead := OwnerExists(r, s.Before(b, g), |r| - 1);
    tip := OwnerExists(r, s.Before(b, g) + v - 1, |r| - 1);
    Rising(s, r, tip + 1, lead);
  }

  // The list core c contributes: its visible part of the row.
  ghost function Part(s: Shape, r: seq<nat>, c: nat, b: nat, g: nat, score: Scores, len: nat): seq<Entry>
    requires s.gSize > 0 && c < |r| - 1 && b < |s.batches| && g < s.Tiles(b)
  {
    var (p, q) := Piece(s, r, c, b, g);
    if p < 0 then [] else
      Top(BASE_TOPK, Seen(score, len, p, if q < 0 then 0 else Min(CeilDiv(len, S2_BASE), q)))
  }

  // Who writes what for the row.
  lemma EmitsOfSpan(s: Shape, r: seq<nat>, b: nat, g: nat, score: Scores, len: nat, lead: nat, tip: nat, c: nat)
    requires s.Valid() && Boundaries(s, r) && b < |s.batches| && g < s.Tiles(b)
    requires Span(s, r, b, g, len, lead, tip) && c < |r| - 1
    ensures CoreEmit(s, r, c, b, g, score, len) ==
            if c < lead || c > tip then Nothing
            else EmitOf(Part(s, r, c, b, g, score, len), if c == lead then 0 else 1, c == tip, true)
  {
    var (p, q) := Piece(s, r, c, b, g);
    if c < lead {
      assert r[c + 1] <= r[lead];
    } else if c > tip {
      assert r[tip + 1] <= r[c];
    } else {
      if c < tip {
        assert r[c + 1] <= r[tip];
      }
      if lead < c {
        assert r[lead + 1] <= r[c];
      }
      assert r[c] < r[c + 1] && r[c] <= r[tip];
    }
  }

  // How many of the row's blocks are done once cores up to m are.
  ghost function Reach(s: Shape, r: seq<nat>, b: nat, g: nat, len: nat, m: nat): int
    requires s.gSize > 0 && m < |r| - 1 && b < |s.batches| && g < s.Tiles(b)
  {
    Min(CeilDiv(len, S2_BASE), r[m + 1] - s.Before(b, g))
  }

  // The lists of the leading core and of cores lead + 1 .. m together stand for the row's blocks up to
  // where core m's piece ends.
  lemma {:induction false} ChainTop(s: Shape, r: seq<nat>, b: nat, g: nat, score: Scores, len: nat,
                                    lead: nat, tip: nat, m: nat, heads: seq<Slot>)
    requires s.Valid() && Boundaries(s, r) && b < |s.batches| && g < s.Tiles(b)
    requires Span(s, r, b, g, len, lead, tip) && lead <= m <= tip && |heads| == |r| - 1
    requires forall d :: lead < d <= tip ==> heads[d].list == Part(s, r, d, b, g, score, len)
    ensures 0 < Reach(s, r, b, g, len, m)
    ensures Top(BASE_TOPK, Part(s, r, lead, b, g, score, len) + Lists(heads, lead + 1, m + 1))
         == Top(BASE_TOPK, Seen(score, len, 0, Reach(s, r, b, g, len, m)))
  {
    var base := Part(s, r, lead, b, g, score, len);
    if m == lead {
      PartIs(s, r, b, g, score, len, lead, tip, lead);
      assert base + Lists(heads, lead + 1, lead + 1) == base;
      TopTwice(Seen(score, len, 0, Reach(s, r, b, g, len, lead)));
    } else {
      ChainTop(s, r, b, g, score, len, lead, tip, m - 1, heads);
      PartIs(s, r, b, g, score, len, lead, tip, m);
      var before := base + Lists(heads, lead + 1, m);
      var q0, q1 := Reach(s, r, b, g, len, m - 1), Reach(s, r, b, g, len, m);
      Reassociate(base, Lists(heads, lead + 1, m), heads[m].list);
      AddPart(before, Seen(score, len, 0, q0), Seen(score, len, q0, q1));
      SeenJoins(score, len, 0, q0, q1);
    }
  }

  lemma Reassociate<T>(a: seq<T>, b: seq<T>, c: seq<T>)
    ensures a + (b + c) == a + b + c
  {
  }

  // The part of core m runs from where core m - 1's part ends to where core m's ends.
  lemma PartIs(s: Shape, r: seq<nat>, b: nat, g: nat, score: Scores, len: nat, lead: nat, tip: nat, m: nat)
    requires s.Valid() && Boundaries(s, r) && b < |s.batches| && g < s.Tiles(b)
    requires Span(s, r, b, g, len, lead, tip) && lead <= m <= tip
    ensures 0 < Reach(s, r, b, g, len, m)
    ensures m == lead ==> Part(s, r, m, b, g, score, len) == Top(BASE_TOPK, Seen(score, len, 0, Reach(s, r, b, g, len, m)))
    ensures m > lead ==>
              && 0 < Reach(s, r, b, g, len, m - 1) <= Reach(s, r, b, g, len, m)
              && Part(s, r, m, b, g, score, len)
                 == Top(BASE_TOPK, Seen(score, len, Reach(s, r, b, g, len, m - 1), Reach(s, r, b, g, len, m)))
  {
    assert r[m] < r[m + 1] && r[m] <= r[tip];
    if m > lead {
      assert r[lead + 1] <= r[m];
    }
  }

  // Adding the k best of a part to a list that stands for `x`.
  lemma AddPart(a: seq<Entry>, x: seq<Entry>, raw: seq<Entry>)
    requires Top(BASE_TOPK, a) == Top(BASE_TOPK, x)
    ensures Top(BASE_TOPK, a + Top(BASE_TOPK, raw)) == Top(BASE_TOPK, x + raw)
  {
    var t := Top(BASE_TOPK, raw);
    TopOfSame(BASE_TOPK, a + t, t + a);
    TopAbsorbs(BASE_TOPK, raw, a);
    TopOfSame(BASE_TOPK, raw + a, a + raw);
    TopAbsorbs(BASE_TOPK, a, raw);
    TopAbsorbs(BASE_TOPK, x, raw);
  }

  // The length of one row, from the vector core that has it.
  method RowLength(s: Shape, b: nat, g: nat, row: nat) returns (len: int)
    requires s.Valid() && b < |s.batches| && row < s.batches[b].s1 && s.RowInTile(b, g, row)
    ensures len == if s.mask then s.batches[b].s2 - s.batches[b].s1 + row + 1 else s.batches[b].s2
  {
    var x := s.batches[b];
    var begin0, lengths0 := RowLengths(g, s.S1Base(), x.s1, x.s2, s.mask, 0);
    var begin1, lengths1 := RowLengths(g, s.S1Base(), x.s1, x.s2, s.mask, 1);
    len := if row < begin1 then lengths0[row - begin0] else lengths1[row - begin1];
  }

  // For every row of a batch with keys, however it is split over cores, exactly one core writes its
  // output. The row ranks the keys of its batch, under the mask only those up to its own place counted
  // from the end: what is written are keys it may attend to with their scores, best first and earlier
  // ones first among equals, and any such key that is not written ranks behind all that are.
  method IndexRow(s: Shape, r: seq<nat>, infos: seq<SplitCoreInfo>, b: nat, g: nat, row: nat,
                  lanes: seq<RowLane>, score: Scores, sparseCount: nat) returns (out: seq<Entry>, writers: nat)
    requires s.Valid() && Boundaries(s, r) && AllSplit(s, r, infos)
    requires b < |s.batches| && row < s.batches[b].s1 && s.batches[b].s2 > 0
    requires g * 512 <= row * s.gSize < g * 512 + 512
    requires sparseCount <= BASE_TOPK && g < s.Tiles(b) && LanesReady(s, r, b, g, lanes)
    modifies lanes
    ensures writers == 1 && |out| == sparseCount
    ensures forall p :: 0 <= p < |out| && out[p].Key? ==>
              && out[p].score == score(out[p].idx)
              && out[p].idx < s.batches[b].s2 && (s.mask ==> out[p].idx + s.batches[b].s1 <= row + s.batches[b].s2)
    ensures forall p, q :: 0 <= p < q < |out| && out[q].Key? ==>
              && out[p].Key?
              && (out[p].score > out[q].score || (out[p].score == out[q].score && out[p].idx < out[q].idx))
    ensures forall i, p ::
              && 0 <= i < s.batches[b].s2 && (s.mask ==> i + s.batches[b].s1 <= row + s.batches[b].s2)
              && Key(score(i), i) !in out && 0 <= p < |out| ==>
                out[p].Key? && (out[p].score > score(i) || (out[p].score == score(i) && out[p].idx < i))
    ensures out == Top(sparseCount,
                       Keys(score, if s.mask then s.batches[b].s2 - s.batches[b].s1 + row + 1 else s.batches[b].s2))
  {
    s.TileOfRow(b, g, row);
    assert s.BatchOk(s.batches[b]);
    var len := RowLength(s, b, g, row);
    VisibleFits(s, b, g, row);
    var emits := RunCores(s, r, infos, b, g, lanes, score, len);
    var heads := seq(|emits|, c requires 0 <= c < |emits| => HeadSlot(emits[c]));
    ghost var lead, tip := FindSpan(s, r, b, g, len);
    SpanIsChain(s, r, infos, b, g, score, len, lead, tip, emits, heads);
    EmitKinds(s, r, b, g, score, len, lead, tip, emits);
    TopShorter(BASE_TOPK, sparseCount, Keys(score, len));
    out, writers := WriteRow(infos, emits, heads, sparseCount, lead, tip, Top(BASE_TOPK, Keys(score, len)));
    TopOfKeys(score, len, sparseCount, out);
  }

  // What the cores put out for one row: the core that holds the whole row writes it, and a core that
  // holds its beginning and has an LD task stitches the pieces.
  method WriteRow(infos: seq<SplitCoreInfo>, emits: seq<Emit>, heads: seq<Slot>, sparseCount: nat,
                  ghost lead: nat, ghost tip: nat, ghost best: seq<Entry>)
    returns (out: seq<Entry>, writers: nat)
    requires |infos| == |emits| == |heads| && lead <= tip < |emits| && |best| == BASE_TOPK
    requires forall c :: 0 <= c < |emits| ==> (emits[c].Out? <==> c == lead == tip)
    requires forall c :: 0 <= c < |emits| ==> (TailSlot(emits[c]).needFd == 1 <==> c == lead < tip)
    requires if lead == tip then emits[lead] == Out(best)
             else && infos[lead].isLD && SlotOk(TailSlot(emits[lead])) && Chain(heads, lead, tip)
                  && Top(BASE_TOPK, TailSlot(emits[lead]).list + Lists(heads, lead + 1, tip + 1)) == best
    ensures writers == 1 && out == Take(best, sparseCount)
  {
    out, writers := [], 0;
    for c := 0 to |emits|
      invariant writers == if lead < c then 1 else 0
      invariant lead < c ==> out == Take(best, sparseCount)
    {
      if emits[c].Out? {
        out, writers := Take(emits[c].list, sparseCount), writers + 1;
      }
      if infos[c].isLD && TailSlot(emits[c]).needFd == 1 {
        var list := ProcessLD(c, heads, TailSlot(emits[c]), tip);
        out, writers := Take(list, sparseCount), writers + 1;
      }
    }
  }

  lemma EmitKinds(s: Shape, r: seq<nat>, b: nat, g: nat, score: Scores, len: nat, lead: nat, tip: nat,
                  emits: seq<Emit>)
    requires s.Valid() && Boundaries(s, r) && b < |s.batches| && g < s.Tiles(b)
    requires Span(s, r, b, g, len, lead, tip) && |emits| == |r| - 1
    requires forall c :: 0 <= c < |emits| ==> emits[c] == CoreEmit(s, r, c, b, g, score, len)
    ensures forall c :: 0 <= c < |emits| ==> (emits[c].Out? <==> c == lead == tip)
    ensures forall c :: 0 <= c < |emits| ==> (TailSlot(emits[c]).needFd == 1 <==> c == lead < tip)
  {
    forall c | 0 <= c < |emits|
      ensures emits[c].Out? <==> c == lead == tip
      ensures TailSlot(emits[c]).needFd == 1 <==> c == lead < tip
    {
      EmitsOfSpan(s, r, b, g, score, len, lead, tip, c);
    }
  }

  // A row's visible keys end within its tile's key blocks.
  lemma VisibleFits(s: Shape, b: nat, g: nat, row: nat)
    requires s.Valid() && b < |s.batches| && g < s.Tiles(b) && s.RowInTile(b, g, row) && s.Visible(b, row) > 0
    ensures CeilDiv(s.Visible(b, row), S2_BASE) <= s.KeyBlocks(b, g)
  {
    var len, n := s.Visible(b, row), s.KeyBlocks(b, g);
    s.KeyBlockIffSeen(b, g, n);
    CeilDivGalois(len, S2_BASE, n);
  }

  lemma SpanIsChain(s: Shape, r: seq<nat>, infos: seq<SplitCoreInfo>, b: nat, g: nat, score: Scores, len: nat,
                    lead: nat, tip: nat, emits: seq<Emit>, heads: seq<Slot>)
    requires s.Valid() && Boundaries(s, r) && AllSplit(s, r, infos) && b < |s.batches| && g < s.Tiles(b)
    requires Span(s, r, b, g, len, lead, tip) && |emits| == |infos| == |heads|
    requires forall c :: 0 <= c < |emits| ==> emits[c] == CoreEmit(s, r, c, b, g, score, len)
    requires forall c :: 0 <= c < |emits| ==> heads[c] == HeadSlot(emits[c])
    ensures var best := Top(BASE_TOPK, Keys(score, len));
            if lead == tip then emits[lead] == Out(best)
            else && infos[lead].isLD && TailSlot(emits[lead]).needFd == 1 && SlotOk(TailSlot(emits[lead]))
                 && Chain(heads, lead, tip)
                 && Top(BASE_TOPK, TailSlot(emits[lead]).list + Lists(heads, lead + 1, tip + 1)) == best
  {
    TopOfAllBlocks(score, len);
    EmitsOfSpan(s, r, b, g, score, len, lead, tip, lead);
    if lead < tip {
      forall d | lead < d <= tip
        ensures heads[d] == Slot(1, d == tip, Part(s, r, d, b, g, score, len)) && SlotOk(heads[d])
      {
        EmitsOfSpan(s, r, b, g, score, len, lead, tip, d);
        PartIsList(s, r, d, b, g, score, len);
      }
      assert r[lead + 1] <= r[tip];
      PartIsList(s, r, lead, b, g, score, len);
      LeadsIffHoldsFirst(s, r, infos, lead, b, g);
      ChainTop(s, r, b, g, score, len, lead, tip, tip, heads);
    }
  }

  lemma PartIsList(s: Shape, r: seq<nat>, c: nat, b: nat, g: nat, score: Scores, len: nat)
    requires s.gSize > 0 && c < |r| - 1 && b < |s.batches| && g < s.Tiles(b)
    ensures |Part(s, r, c, b, g, score, len)| == BASE_TOPK && Sorted(Part(s, r, c, b, g, score, len))
  {
    var (p, q) := Piece(s, r, c, b, g);
    TopIsSorted(BASE_TOPK, Seen(score, len, p, if q < 0 then 0 else Min(CeilDiv(len, S2_BASE), q)));
  }
}
