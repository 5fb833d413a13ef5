/** The serpentine tile order of the batched matmul and MLA kernels. */
module Swizzle {
  import opened Arith

  datatype Tile = Tile(batch: nat, m: nat, n: nat)

  // Bands of `cnt` along one axis of length P are walked across the other axis, of length Q, back and
  // forth; the last band may be narrower.
  function BandWidth(band: nat, P: nat, cnt: nat): (w: int)
    requires cnt > 0
  {
    if band == (P + cnt - 1) / cnt - 1 then P - cnt * band else cnt
  }

  // Place `i` of the walk: (index along the banded axis, index across).
  function Walk(i: nat, P: nat, Q: nat, cnt: nat): (r: (nat, nat))
    requires cnt > 0 && i < P * Q
    ensures r.0 < P && r.1 < Q
  {
    WalkFacts(i, P, Q, cnt);
    WalkInBand(i / (cnt * Q), i % (cnt * Q), P, Q, cnt)
  }

  // The cell at place `inBand` of a band.
  function WalkInBand(band: nat, inBand: nat, P: nat, Q: nat, cnt: nat): (r: (nat, int))
    requires cnt > 0 && BandWidth(band, P, cnt) > 0
  {
    var w := BandWidth(band, P, cnt);
    var across := inBand / w;
    (band * cnt + inBand % w, if band % 2 != 0 then Q - across - 1 else across)
  }

  // The place at which the walk meets (p, q).
  function Unwalk(p: nat, q: nat, P: nat, Q: nat, cnt: nat): int
    requires cnt > 0 && p < P && q < Q
  {
    var band := p / cnt;
    var across := if band % 2 != 0 then Q - q - 1 else q;
    band * (cnt * Q) + across * BandWidth(band, P, cnt) + (p - band * cnt)
  }

  lemma MulPositive(a: nat, b: nat)
    requires a > 0 && b > 0
    ensures a * b > 0
  {
  }

  // Width of the band holding p: positive, at most cnt, and p lies in it.
  lemma BandFacts(p: nat, P: nat, cnt: nat)
    requires cnt > 0 && p < P
    ensures var band := p / cnt;
            var w := BandWidth(band, P, cnt);
            && 0 < w <= cnt && band * cnt + w <= P && p - band * cnt < w && band * cnt <= p
            && (w == cnt || band * cnt + w == P)
  {
    var band, bands := p / cnt, CeilDiv(P, cnt);
    DivBounds(p, cnt);
    CeilDivGalois(P, cnt, band);
    CeilDivGalois(P, cnt, band + 1);
    CeilDivGalois(P, cnt, bands);
    NextMultiple(band, cnt);
    Commute(cnt, band);
    BandSize(band, bands, band * cnt, p, P, cnt);
  }

  lemma NextMultiple(a: nat, b: nat)
    ensures (a + 1) * b == a * b + b
  {
  }

  // The band from `start` on that holds p, given where the next band and the axis end.
  lemma BandSize(band: nat, bands: nat, start: int, p: nat, P: nat, cnt: nat)
    requires start <= p < start + cnt && p < P && band < bands
    requires band + 1 < bands <==> start + cnt < P
    ensures var w := if band == bands - 1 then P - start else cnt;
            && 0 < w <= cnt && start + w <= P && p - start < w && (w == cnt || start + w == P)
  {
  }

  lemma WalkFacts(i: nat, P: nat, Q: nat, cnt: nat)
    requires cnt > 0 && i < P * Q
    ensures cnt * Q > 0 && Q > 0
    ensures var band := i / (cnt * Q);
            var inBand := i % (cnt * Q);
            var w := BandWidth(band, P, cnt);
            && i == band * (cnt * Q) + inBand
            && 0 < w <= cnt && band * cnt + w <= P
            && inBand < w * Q && 0 <= inBand / w < Q && 0 <= inBand % w < w
            && inBand == inBand / w * w + inBand % w
            && (band * cnt + inBand % w) / cnt == band
  {
    SizePositive(i, P, Q, cnt);
    var S := cnt * Q;
    var band, inBand := i / S, i % S;
    DivModIs(i, S);
    BandOfPlace(band, P, Q, cnt, S, i, inBand);
    var w := BandWidth(band, P, cnt);
    InBandFacts(inBand, w, Q, band, cnt);
  }

  lemma SizePositive(i: nat, P: nat, Q: nat, cnt: nat)
    requires cnt > 0 && i < P * Q
    ensures cnt * Q > 0 && Q > 0 && P > 0
  {
    assert Q > 0 && P > 0;
    MulPositive(cnt, Q);
  }

  lemma DivModIs(i: nat, S: nat)
    requires S > 0
    ensures i == i / S * S + i % S && 0 <= i % S < S && 0 <= i / S
  {
  }

  lemma InBandFacts(x: nat, w: int, Q: nat, band: nat, cnt: nat)
    requires 0 < w <= cnt && x < w * Q
    ensures 0 <= x / w < Q && 0 <= x % w < w && x == x / w * w + x % w
    ensures (band * cnt + x % w) / cnt == band
  {
    DivModIs(x, w);
    QuotientBelow(x, w, Q);
    DivModOfSum(band, cnt, x % w);
  }

  // Place i = band * S + x lies in band `band`, within the band's cells.
  lemma BandOfPlace(band: nat, P: nat, Q: nat, cnt: nat, S: nat, i: nat, x: nat)
    requires cnt > 0 && S == cnt * Q && i == band * S + x && x < S && i < P * Q
    ensures var w := BandWidth(band, P, cnt);
            0 < w <= cnt && band * cnt + w <= P && x < w * Q
  {
    BandStart(band, P, Q, cnt, S, i);
    DivModOfSum(band, cnt, 0);
    BandFacts(band * cnt, P, cnt);
    InBandBound(band, P, Q, cnt, S, BandWidth(band, P, cnt), i, x);
  }

  // The band that place i falls in starts inside the axis.
  lemma BandStart(band: nat, P: nat, Q: nat, cnt: nat, S: nat, i: nat)
    requires S == cnt * Q && i < P * Q && band * S <= i
    ensures band * cnt < P
  {
    MulAssoc(band, cnt, Q);
    MulOrder(P, band * cnt, Q);
  }

  lemma MulAssoc(a: int, b: int, c: int)
    ensures a * (b * c) == a * b * c
  {
  }

  lemma InBandBound(band: nat, P: nat, Q: nat, cnt: nat, S: nat, w: int, i: nat, x: nat)
    requires S == cnt * Q && i < P * Q && i == band * S + x && x < S
    requires w == cnt || band * cnt + w == P
    ensures x < w * Q
  {
    MulAssoc(band, cnt, Q);
    Distribute(band * cnt, w, Q);
  }

  lemma Distribute(a: int, b: int, c: int)
    ensures (a + b) * c == a * c + b * c
  {
  }

  lemma QuotientBelow(x: nat, w: nat, Q: nat)
    requires w > 0 && x < w * Q
    ensures x / w < Q
  {
    DivModIs(x, w);
    MulOrder(Q, x / w, w);
  }

  // The cells of one band come within the band's S places, and within the P * Q places in all.
  lemma CellInBand(band: nat, across: nat, along: nat, w: int, P: nat, Q: nat, cnt: nat, S: nat)
    requires S == cnt * Q && 0 < w <= cnt && band * cnt + w <= P && across < Q && along < w
    ensures across * w + along < w * Q && across * w + along < S
    ensures band * S + (across * w + along) < P * Q
    ensures 0 <= across * w && 0 <= band * S
  {
    MulOrder(across, Q, w);
    MulOrder(w, cnt, Q);
    MulAssoc(band, cnt, Q);
    Distribute(band * cnt, w, Q);
    MulOrder(band * cnt + w, P, Q);
  }

  // The walk and its inverse undo each other: every place meets one cell, every cell is met once.
  lemma WalkOfUnwalk(p: nat, q: nat, P: nat, Q: nat, cnt: nat)
    requires cnt > 0 && p < P && q < Q
    ensures 0 <= Unwalk(p, q, P, Q, cnt) < P * Q
    ensures Walk(Unwalk(p, q, P, Q, cnt), P, Q, cnt) == (p, q)
  {
    var band, across, along, w := UnwalkParts(p, q, P, Q, cnt);
    CellRoundTrip(band, across, along, w, P, Q, cnt, cnt * Q);
  }

  lemma UnwalkParts(p: nat, q: nat, P: nat, Q: nat, cnt: nat) returns (band: nat, across: nat, along: nat, w: int)
    requires cnt > 0 && p < P && q < Q
    ensures w == BandWidth(band, P, cnt) && across < Q && along < w <= cnt && band * cnt + w <= P
    ensures p == band * cnt + along && q == if band % 2 != 0 then Q - across - 1 else across
    ensures Unwalk(p, q, P, Q, cnt) == band * (cnt * Q) + across * w + along
  {
    BandFacts(p, P, cnt);
    band := p / cnt;
    across := if band % 2 != 0 then Q - q - 1 else q;
    along, w := p - band * cnt, BandWidth(band, P, cnt);
  }

  lemma CellRoundTrip(band: nat, across: nat, along: nat, w: int, P: nat, Q: nat, cnt: nat, S: nat)
    requires cnt > 0 && w == BandWidth(band, P, cnt) && across < Q && along < w <= cnt && band * cnt + w <= P
    requires S == cnt * Q
    ensures var i := band * S + across * w + along;
            0 <= i < P * Q && Walk(i, P, Q, cnt) == (band * cnt + along, if band % 2 != 0 then Q - across - 1 else across)
  {
    CellInBand(band, across, along, w, P, Q, cnt, S);
    WalkOfCell(band, across, along, P, Q, cnt);
    WalkOfPlace(band, across * w + along, P, Q, cnt, S);
  }

  lemma WalkOfPlace(band: nat, x: nat, P: nat, Q: nat, cnt: nat, S: nat)
    requires cnt > 0 && S == cnt * Q && x < S && band * S + x < P * Q && BandWidth(band, P, cnt) > 0
    ensures 0 <= band * S && Walk(band * S + x, P, Q, cnt) == WalkInBand(band, x, P, Q, cnt)
  {
    MulOrder(0, band, S);
    DivModOfSum(band, S, x);
  }

  lemma WalkOfCell(band: nat, across: nat, along: nat, P: nat, Q: nat, cnt: nat)
    requires cnt > 0 && along < BandWidth(band, P, cnt) && across < Q
    ensures var w := BandWidth(band, P, cnt);
            0 <= across * w && WalkInBand(band, across * w + along, P, Q, cnt)
               == (band * cnt + along, if band % 2 != 0 then Q - across - 1 else across)
  {
    var w := BandWidth(band, P, cnt);
    MulOrder(0, across, w);
    DivModOfSum(across, w, along);
  }

  lemma UnwalkOfWalk(i: nat, P: nat, Q: nat, cnt: nat)
    requires cnt > 0 && i < P * Q
    ensures var (p, q) := Walk(i, P, Q, cnt); Unwalk(p, q, P, Q, cnt) == i
  {
    WalkFacts(i, P, Q, cnt);
  }

  // Where one band ends and the next begins the walk stays at the same index across.
  lemma BandsJoin(band: nat, P: nat, Q: nat, cnt: nat)
    requires cnt > 0 && Q > 0 && (band + 1) * cnt < P
    ensures 0 < (band + 1) * (cnt * Q) < P * Q
    ensures var i := (band + 1) * (cnt * Q);
            Walk(i - 1, P, Q, cnt).1 == Walk(i, P, Q, cnt).1 && Walk(i - 1, P, Q, cnt).0 + 1 == Walk(i, P, Q, cnt).0
  {
    var S := cnt * Q;
    MulPositive(cnt, Q);
    var p0 := band * cnt + (cnt - 1);
    var q := if band % 2 != 0 then 0 else Q - 1;
    LastOfBand(band, P, Q, cnt);
    FirstOfBand(band + 1, P, Q, cnt);
    WalkOfUnwalk(p0, q, P, Q, cnt);
    WalkOfUnwalk((band + 1) * cnt, q, P, Q, cnt);
  }

  lemma FirstOfBand(band: nat, P: nat, Q: nat, cnt: nat)
    requires cnt > 0 && Q > 0 && band * cnt < P
    ensures var q := if band % 2 != 0 then Q - 1 else 0;
            Unwalk(band * cnt, q, P, Q, cnt) == band * (cnt * Q)
  {
    DivModOfSum(band, cnt, 0);
  }

  lemma LastOfBand(band: nat, P: nat, Q: nat, cnt: nat)
    requires cnt > 0 && Q > 0 && (band + 1) * cnt < P
    ensures var q := if band % 2 != 0 then 0 else Q - 1;
            && band * cnt + (cnt - 1) < P
            && Unwalk(band * cnt + (cnt - 1), q, P, Q, cnt) == (band + 1) * (cnt * Q) - 1
  {
    Distribute(band, 1, cnt);
    Distribute(band, 1, cnt * Q);
    DivModOfSum(band, cnt, cnt - 1);
    BandFacts(band * cnt + (cnt - 1), P, cnt);
    Distribute(Q - 1, 1, cnt);
  }

  // GetBlockIdx: tile `index` of a launch; direction 0 bands the rows of tiles, direction 1 the columns.
  function TileOf(dir: nat, index: nat, batches: nat, mLoop: nat, nLoop: nat, cnt: nat): (t: Tile)
    requires cnt > 0 && index < batches * (mLoop * nLoop)
    ensures t.batch < batches && t.m < mLoop && t.n < nLoop
  {
    InBatch(index, batches, mLoop, nLoop);
    var batch := index / nLoop / mLoop;
    var inBatch := index % (mLoop * nLoop);
    if dir == 0 then
      var (m, n) := Walk(inBatch, mLoop, nLoop, cnt);
      Tile(batch, m, n)
    else
      var (n, m) := Walk(inBatch, nLoop, mLoop, cnt);
      Tile(batch, m, n)
  }

  function IndexOf(dir: nat, t: Tile, mLoop: nat, nLoop: nat, cnt: nat): int
    requires cnt > 0 && t.m < mLoop && t.n < nLoop
  {
    t.batch * (mLoop * nLoop)
    + if dir == 0 then Unwalk(t.m, t.n, mLoop, nLoop, cnt) else Unwalk(t.n, t.m, nLoop, mLoop, cnt)
  }

  lemma InBatch(index: nat, batches: nat, mLoop: nat, nLoop: nat)
    requires index < batches * (mLoop * nLoop)
    ensures mLoop * nLoop == nLoop * mLoop > 0 && mLoop > 0 && nLoop > 0
    ensures index / nLoop / mLoop == index / (mLoop * nLoop) < batches
    ensures 0 <= index % (mLoop * nLoop) < mLoop * nLoop
    ensures index == index / (mLoop * nLoop) * (mLoop * nLoop) + index % (mLoop * nLoop)
  {
    var size := mLoop * nLoop;
    assert size > 0;
    QuotientBelow(index, size, batches);
    DivModIs(index, size);
    BatchOfIndex(index, mLoop, nLoop);
  }

  lemma BatchOfIndex(index: nat, mLoop: nat, nLoop: nat)
    requires mLoop * nLoop > 0
    ensures mLoop > 0 && nLoop > 0
    ensures index / nLoop / mLoop == index / (mLoop * nLoop)
  {
    var a := index / nLoop;
    var q := a / mLoop;
    DivModIs(index, nLoop);
    DivModIs(a, mLoop);
    Regroup(q, mLoop, nLoop, a);
    DivUnique(index, mLoop * nLoop, q);
  }

  lemma Regroup(q: nat, mLoop: nat, nLoop: nat, a: nat)
    requires q * mLoop <= a < q * mLoop + mLoop
    ensures q * (mLoop * nLoop) <= a * nLoop && a * nLoop + nLoop <= q * (mLoop * nLoop) + mLoop * nLoop
  {
    MulAssoc(q, mLoop, nLoop);
    Distribute(q * mLoop, mLoop, nLoop);
    MulOrder(q * mLoop, a, nLoop);
    MulOrder(a, q * mLoop + mLoop, nLoop);
  }

  // The swizzled order meets every (batch, row tile, column tile) exactly once, in both directions and
  // for every swizzle count.
  lemma TileOfIsBijection(dir: nat, index: nat, batches: nat, mLoop: nat, nLoop: nat, cnt: nat)
    requires cnt > 0 && index < batches * (mLoop * nLoop)
    ensures IndexOf(dir, TileOf(dir, index, batches, mLoop, nLoop, cnt), mLoop, nLoop, cnt) == index
  {
    InBatch(index, batches, mLoop, nLoop);
    var inBatch := index % (mLoop * nLoop);
    if dir == 0 {
      UnwalkOfWalk(inBatch, mLoop, nLoop, cnt);
    } else {
      UnwalkOfWalk(inBatch, nLoop, mLoop, cnt);
    }
  }

  lemma IndexOfIsInverse(dir: nat, t: Tile, batches: nat, mLoop: nat, nLoop: nat, cnt: nat)
    requires cnt > 0 && t.batch < batches && t.m < mLoop && t.n < nLoop
    ensures 0 <= IndexOf(dir, t, mLoop, nLoop, cnt) < batches * (mLoop * nLoop)
    ensures TileOf(dir, IndexOf(dir, t, mLoop, nLoop, cnt), batches, mLoop, nLoop, cnt) == t
  {
    var size := mLoop * nLoop;
    var inBatch := IndexOf(dir, t, mLoop, nLoop, cnt) - t.batch * size;
    Commute(mLoop, nLoop);
    if dir == 0 {
      WalkOfUnwalk(t.m, t.n, mLoop, nLoop, cnt);
    } else {
      WalkOfUnwalk(t.n, t.m, nLoop, mLoop, cnt);
    }
    MulOrder(t.batch, batches, size);
    MulOrder(0, t.batch, size);
    var index := t.batch * size + inBatch;
    InBatch(index, batches, mLoop, nLoop);
    DivModOfSum(t.batch, size, inBatch);
  }

  lemma Commute(a: nat, b: nat)
    ensures a * b == b * a
  {
  }

  // Numbers in the stride of one core, below the next one of it.
  lemma StrideNext(o: int, core: nat, numCore: nat, limit: nat)
    requires numCore > 0 && o >= 0 && limit % numCore == core
    ensures o % numCore == core && o < limit + numCore <==> (o % numCore == core && o < limit) || o == limit
    ensures (limit + numCore) % numCore == core
  {
    DivModIs(o, numCore);
    DivModIs(limit, numCore);
    var q, ql := o / numCore, limit / numCore;
    if o % numCore == core {
      MulOrder(q, ql, numCore);
      MulOrder(ql, q, numCore);
      MulOrder(ql + 1, q, numCore);
    }
    Distribute(ql, 1, numCore);
    DivModOfSum(ql + 1, numCore, core);
  }
}
