/** The batched matmul C[i, b, j] = sum over l of A[i, b, l] * B[b, l, j], and its tiling. */
module MatmulSpec {
  import opened Arith
  import opened NzFormat
  import opened Swizzle

  // Problem sizes, tile sizes, loop counts and switches, as the host computes them.
  datatype Tiling = Tiling(
    batch: nat, m: nat, k: nat, n: nat,
    m0: nat, k0: nat, n0: nat,
    mLoop: nat, kLoop: nat, nLoop: nat,
    swizzleDir: nat, swizzleCnt: nat, transB: bool, nzB: bool, enShuffleK: bool)
  {
    ghost predicate Valid() {
      && batch > 0 && m > 0 && k > 0 && n > 0
      && m0 > 0 && k0 > 0 && n0 > 0 && m0 % 16 == 0 && k0 % 16 == 0 && n0 % 16 == 0
      && m0 <= 1024 && n0 <= 1024
      && mLoop == CeilDiv(m, m0) && kLoop == CeilDiv(k, k0) && nLoop == CeilDiv(n, n0)
      && swizzleCnt > 0
    }

    // Elements that B takes for each batch: in NZ format both sides are padded.
    function SizeB(): nat {
      if nzB then RoundUp16(k) * RoundUp16(n) else k * n
    }

    function CoreLoop(): nat {
      batch * (mLoop * nLoop)
    }

    function MActual(tm: nat): int {
      if tm == mLoop - 1 then m - tm * m0 else m0
    }

    function NActual(tn: nat): int {
      if tn == nLoop - 1 then n - tn * n0 else n0
    }

    function KActual(kb: nat): int {
      if kb == kLoop - 1 then k - kb * k0 else k0
    }

    // The k block that core `core` takes in its t-th step.
    function ShuffleK(core: nat, t: nat): (kb: nat)
      requires kLoop > 0
      ensures t < kLoop ==> kb < kLoop
    {
      DivModIs(t + core, kLoop);
      if enShuffleK then (t + core) % kLoop else t
    }

    lemma LoopsPositive()
      requires Valid()
      ensures mLoop > 0 && kLoop > 0 && nLoop > 0
    {
      CeilDivGalois(m, m0, 0);
      CeilDivGalois(k, k0, 0);
      CeilDivGalois(n, n0, 0);
    }

    lemma MTile(tm: nat)
      requires Valid() && tm < mLoop
      ensures 0 < MActual(tm) <= m0 && tm * m0 + MActual(tm) <= m
      ensures tm == mLoop - 1 || MActual(tm) == m0
    {
      TileExtent(m, m0, mLoop, tm);
    }

    lemma NTile(tn: nat)
      requires Valid() && tn < nLoop
      ensures 0 < NActual(tn) <= n0 && tn * n0 + NActual(tn) <= n
    {
      TileExtent(n, n0, nLoop, tn);
    }

    lemma KTile(kb: nat)
      requires Valid() && kb < kLoop
      ensures 0 < KActual(kb) <= k0 && kb * k0 + KActual(kb) <= k
      ensures kb + 1 < kLoop ==> (kb + 1) * k0 == kb * k0 + KActual(kb)
      ensures kb + 1 == kLoop ==> k == kb * k0 + KActual(kb)
    {
      TileExtent(k, k0, kLoop, kb);
      Distribute(kb, 1, k0);
    }
  }

  lemma TileExtent(x: nat, x0: nat, loop: nat, t: nat)
    requires x0 > 0 && loop == CeilDiv(x, x0) && t < loop
    ensures t * x0 < x
    ensures if t == loop - 1 then x - t * x0 <= x0 else t * x0 + x0 <= x
  {
    CeilDivGalois(x, x0, t);
    CeilDivGalois(x, x0, t + 1);
    Distribute(t, 1, x0);
  }

  // Place of A[i, b, l], B[b, l, j] and C[i, b, j] in their flat buffers.
  function AddrA(p: Tiling, i: nat, b: nat, l: nat): nat {
    i * (p.batch * p.k) + b * p.k + l
  }

  function AddrB(p: Tiling, b: nat, l: nat, j: nat): nat {
    b * p.SizeB() + PlaceB(p, l, j)
  }

  // A transposed B is stored by columns.
  function PlaceB(p: Tiling, l: nat, j: nat): nat {
    if p.nzB then
      if p.transB then NzPlace(j, l, RoundUp16(p.n)) else NzPlace(l, j, RoundUp16(p.k))
    else
      if p.transB then j * p.k + l else l * p.n + j
  }

  lemma PlaceBInside(p: Tiling, l: nat, j: nat)
    requires l < p.k && j < p.n
    ensures PlaceB(p, l, j) < p.SizeB()
  {
    RoundUpBounds(p.k);
    RoundUpBounds(p.n);
    Commute(RoundUp16(p.k), RoundUp16(p.n));
    if p.nzB {
      if p.transB {
        NzInside(j, l, RoundUp16(p.n), RoundUp16(p.k));
      } else {
        NzInside(l, j, RoundUp16(p.k), RoundUp16(p.n));
      }
    } else if p.transB {
      MixedRadix(0, j, l, 1, p.n, p.k);
      Commute(p.k, p.n);
    } else {
      MixedRadix(0, l, j, 1, p.k, p.n);
    }
  }

  function AddrC(p: Tiling, i: nat, b: nat, j: nat): nat {
    i * (p.batch * p.n) + b * p.n + j
  }

  // Three digits in mixed radix: x below X, y below Y, z below Z.
  lemma MixedRadix(x: nat, y: nat, z: nat, X: nat, Y: nat, Z: nat)
    requires x < X && y < Y && z < Z
    ensures x * (Y * Z) + y * Z + z < X * (Y * Z)
    ensures y * Z + z < Y * Z
  {
    MulOrder(y, Y, Z);
    MulOrder(x, X, Y * Z);
  }

  lemma AddrBounds(p: Tiling, i: nat, b: nat, l: nat, j: nat)
    requires i < p.m && b < p.batch && l < p.k && j < p.n
    ensures AddrA(p, i, b, l) < p.m * (p.batch * p.k)
    ensures AddrB(p, b, l, j) < p.batch * p.SizeB()
    ensures AddrC(p, i, b, j) < p.m * (p.batch * p.n)
  {
    MixedRadix(i, b, l, p.m, p.batch, p.k);
    MixedRadix(i, b, j, p.m, p.batch, p.n);
    PlaceBInside(p, l, j);
    MulOrder(b, p.batch, p.SizeB());
  }

  datatype Problem = Problem(p: Tiling, gmA: seq<int>, gmB: seq<int>)
  {
    ghost predicate Valid() {
      && p.Valid()
      && |gmA| == p.m * (p.batch * p.k)
      && |gmB| == p.batch * p.SizeB()
    }

    // A[i, b, l] and B[b, l, j]; zero outside the matrices.
    function A(i: int, b: int, l: int): int {
      if 0 <= i < p.m && 0 <= b < p.batch && 0 <= l < p.k && AddrA(p, i, b, l) < |gmA|
      then gmA[AddrA(p, i, b, l)] else 0
    }

    function B(b: int, l: int, j: int): int {
      if 0 <= b < p.batch && 0 <= l < p.k && 0 <= j < p.n && AddrB(p, b, l, j) < |gmB|
      then gmB[AddrB(p, b, l, j)] else 0
    }

    // Sum over l in lo .. hi of A[i, b, l] * B[b, l, j].
    function Dot(i: int, b: int, j: int, lo: int, hi: int): int
      decreases hi - lo
    {
      if hi <= lo then 0 else Dot(i, b, j, lo, hi - 1) + A(i, b, hi - 1) * B(b, hi - 1, j)
    }

    lemma {:induction false} DotJoins(i: int, b: int, j: int, lo: int, mid: int, hi: int)
      requires lo <= mid <= hi
      ensures Dot(i, b, j, lo, mid) + Dot(i, b, j, mid, hi) == Dot(i, b, j, lo, hi)
      decreases hi - mid
    {
      if mid < hi {
        DotJoins(i, b, j, lo, mid, hi - 1);
      }
    }

    // The share of one k block.
    function BlockDot(i: int, b: int, j: int, kb: nat): int {
      Dot(i, b, j, kb * p.k0, kb * p.k0 + p.KActual(kb))
    }

    // The shares of k blocks from .. to.
    function BlocksDot(i: int, b: int, j: int, from: nat, upto: nat): int
      decreases upto
    {
      if upto <= from then 0 else BlocksDot(i, b, j, from, upto - 1) + BlockDot(i, b, j, upto - 1)
    }

    // What a core has accumulated after t steps of its rotated order.
    function Rotated(core: nat, i: int, b: int, j: int, t: nat): int
      requires p.kLoop > 0
    {
      if t == 0 then 0 else Rotated(core, i, b, j, t - 1) + BlockDot(i, b, j, p.ShuffleK(core, t - 1))
    }

    lemma {:induction false} BlocksAreDot(i: int, b: int, j: int, upto: nat)
      requires Valid() && upto <= p.kLoop
      ensures upto < p.kLoop ==> upto * p.k0 <= p.k && BlocksDot(i, b, j, 0, upto) == Dot(i, b, j, 0, upto * p.k0)
      ensures upto == p.kLoop ==> BlocksDot(i, b, j, 0, upto) == Dot(i, b, j, 0, p.k)
    {
      if upto > 0 {
        BlocksAreDot(i, b, j, upto - 1);
        p.KTile(upto - 1);
        DotJoins(i, b, j, 0, (upto - 1) * p.k0, (upto - 1) * p.k0 + p.KActual(upto - 1));
      } else {
        p.LoopsPositive();
      }
    }

    lemma {:induction false} BlocksJoin(i: int, b: int, j: int, lo: nat, mid: nat, hi: nat)
      requires lo <= mid <= hi
      ensures BlocksDot(i, b, j, lo, mid) + BlocksDot(i, b, j, mid, hi) == BlocksDot(i, b, j, lo, hi)
      decreases hi
    {
      if mid < hi {
        BlocksJoin(i, b, j, lo, mid, hi - 1);
      }
    }

    // A rotation visits blocks s, s + 1, .., kLoop - 1, 0, .., s - 1.
    lemma {:induction false} RotatedIsSpan(core: nat, i: int, b: int, j: int, t: nat)
      requires p.kLoop > 0 && t <= p.kLoop
      ensures var s := if p.enShuffleK then core % p.kLoop else 0;
              Rotated(core, i, b, j, t) ==
              if s + t <= p.kLoop then BlocksDot(i, b, j, s, s + t)
              else BlocksDot(i, b, j, s, p.kLoop) + BlocksDot(i, b, j, 0, s + t - p.kLoop)
    {
      if t > 0 {
        RotatedIsSpan(core, i, b, j, t - 1);
        if p.enShuffleK {
          RotationStep(core, t - 1, p.kLoop);
        }
      }
    }

    lemma RotationStep(core: nat, t: nat, loop: nat)
      requires 0 < loop && t < loop
      ensures (t + core) % loop == if core % loop + t < loop then core % loop + t else core % loop + t - loop
    {
      var q, s := core / loop, core % loop;
      DivModIs(core, loop);
      if s + t < loop {
        DivModOfSum(q, loop, s + t);
      } else {
        Distribute(q, 1, loop);
        DivModOfSum(q + 1, loop, s + t - loop);
      }
    }

    // Whatever the rotation, all the blocks together give the full sum.
    lemma RotationGivesSum(core: nat, i: int, b: int, j: int)
      requires Valid()
      ensures p.kLoop > 0 && Rotated(core, i, b, j, p.kLoop) == Dot(i, b, j, 0, p.k)
    {
      p.LoopsPositive();
      RotatedIsSpan(core, i, b, j, p.kLoop);
      var s := if p.enShuffleK then core % p.kLoop else 0;
      BlocksJoin(i, b, j, 0, s, p.kLoop);
      BlocksAreDot(i, b, j, p.kLoop);
    }
  }
}
