/** The k tile size the host picks, and the L1 buffer regions it leaves room for. */
module PpMatmulTiling {
  import opened Arith
  import opened NzFormat
  import opened Swizzle
  import opened PpMatmulKernel

  const L1AB_PINGPONG_BUFFER_LEN: nat := 262144
  const L1_DESCALE_BUFFER_LEN_MAX: nat := 6144

  datatype MatMulInfo = MatMulInfo(isInt8: bool, transA: bool, transB: bool, withBias: bool, inDtype: nat)

  lemma Product(a: nat, b: nat)
    ensures a * b >= 0
  {
  }

  function RoundUp32(x: nat): nat {
    (x + 31) / 32 * 32
  }

  function ShapeSum(info: MatMulInfo, m0: nat, n0: nat): nat {
    if info.isInt8 && (info.transA || !info.transB) then RoundUp32(m0) + RoundUp32(n0) else m0 + n0
  }

  // Bytes of one buffer half that the operands may take.
  function Room(info: MatMulInfo, n0: nat): int {
    if info.withBias then L1AB_PINGPONG_BUFFER_LEN - n0 * 4
    else L1AB_PINGPONG_BUFFER_LEN - (if info.isInt8 then L1_DESCALE_BUFFER_LEN_MAX else 0)
  }

  function K0Max(info: MatMulInfo, m0: nat, n0: nat): (k: nat)
    requires info.inDtype > 0 && Room(info, n0) >= 0 && (info.withBias ==> ShapeSum(info, m0, n0) > 0)
  {
    if ShapeSum(info, m0, n0) == 0 then L1AB_PINGPONG_BUFFER_LEN
    else
      MulPositive(ShapeSum(info, m0, n0), info.inDtype);
      Quotient(Room(info, n0), ShapeSum(info, m0, n0) * info.inDtype)
  }

  function Quotient(a: nat, b: nat): nat
    requires b > 0
  {
    DivModIs(a, b);
    a / b
  }

  // x rounded down to whole multiples of u * v.
  function Down(x: nat, u: nat, v: nat): (r: nat)
    requires u > 0 && v > 0 && u * v > 0
    ensures r <= x < r + u * v && r % v == 0
  {
    DivBounds(x, u * v);
    Product(x / (u * v), u);
    MulAssoc(x / (u * v), u, v);
    DivModOfSum(x / (u * v) * u, v, 0);
    x / (u * v) * (u * v)
  }

  // Whole cube blocks if there is one, else whole 16s (32s for int8); whole 512s beyond 512.
  function RoundK0(k0Max: nat, isInt8: bool): (k0: nat)
    ensures k0 <= k0Max && k0 % (if isInt8 then 32 else 16) == 0
    ensures k0 > 0 <==> k0Max >= if isInt8 then 32 else 16
  {
    Beyond512(if isInt8 then (if k0Max < 512 then Down(k0Max, 1, 32) else Down(k0Max, 16, 32))
              else (if k0Max < 256 then Down(k0Max, 1, 16) else Down(k0Max, 16, 16)),
              if isInt8 then 32 else 16)
  }

  function Beyond512(k0: nat, unit: nat): (r: nat)
    requires unit == 16 || unit == 32
    requires k0 % unit == 0
    ensures r <= k0 && r % unit == 0 && (r > 0 <==> k0 > 0)
  {
    if k0 > 512 then (if unit == 32 then Down(k0, 16, 32) else Down(k0, 32, 16)) else k0
  }

  method End(info: MatMulInfo, k: nat, m0: nat, n0: nat) returns (k0: nat, kLoop: nat)
    requires info.inDtype > 0 && Room(info, n0) >= 0 && ShapeSum(info, m0, n0) > 0
    ensures kLoop == CeilDiv(k, k0)
    ensures (m0 + n0) * info.inDtype * k0 <= Room(info, n0)
    ensures k0 % (if info.isInt8 then 32 else 16) == 0
    ensures k0 > 0 <==> ShapeSum(info, m0, n0) * info.inDtype * (if info.isInt8 then 32 else 16) <= Room(info, n0)
  {
    var k0Max := K0Max(info, m0, n0);
    k0 := RoundK0(k0Max, info.isInt8);
    K0Fits(info, m0, n0, k0, if info.isInt8 then 32 else 16);
    kLoop := CeilDiv(k, k0);
  }

  lemma K0Fits(info: MatMulInfo, m0: nat, n0: nat, k0: nat, kBlockSize: nat)
    requires info.inDtype > 0 && Room(info, n0) >= 0 && ShapeSum(info, m0, n0) > 0
    requires k0 <= K0Max(info, m0, n0) && (k0 > 0 <==> K0Max(info, m0, n0) >= kBlockSize)
    ensures (m0 + n0) * info.inDtype * k0 <= Room(info, n0)
    ensures k0 > 0 <==> ShapeSum(info, m0, n0) * info.inDtype * kBlockSize <= Room(info, n0)
  {
    var S := ShapeSum(info, m0, n0);
    assert m0 + n0 <= S;
    MulPositive(S, info.inDtype);
    var W := S * info.inDtype;
    var q := Quotient(Room(info, n0), W);
    DivBounds(Room(info, n0), W);
    MulOrder(k0, q, W);
    Commute(W, k0);
    Commute(W, kBlockSize);
    MulOrder(kBlockSize, q, W);
    MulOrder(q, kBlockSize, W);
    MulOrder(m0 + n0, S, info.inDtype);
    MulOrder((m0 + n0) * info.inDtype, W, k0);
  }

  // The byte regions of the two halves of the L1 buffer: A from 0, B behind it, the second pair one half
  // further on.
  datatype Region = Region(start: nat, len: nat)

  function RoundUp256(x: nat): nat {
    (x + 255) / 256 * 256
  }

  function BytesOf(rows: nat, cols: nat): nat {
    Product(rows, cols);
    2 * (rows * cols)
  }

  // Regions of A and B in half `h`, for two-byte elements.
  function RegionA(m0: nat, k0: nat, h: nat): Region {
    Region(h * (2 * L1_PINGPONG_BUFFER_LEN), BytesOf(m0, k0))
  }

  function RegionB(m0: nat, n0: nat, k0: nat, h: nat): Region {
    Region(h * (2 * L1_PINGPONG_BUFFER_LEN) + RoundUp256(BytesOf(m0, k0)), BytesOf(n0, k0))
  }

  predicate Before(x: Region, y: Region) {
    x.start + x.len <= y.start
  }

  // With the k tile size of `End` the four regions lie one behind the other inside the 512 KB buffer.
  lemma RegionsDisjoint(info: MatMulInfo, m0: nat, n0: nat, k0: nat)
    requires info.inDtype == 2 && m0 % 16 == 0 && k0 % 16 == 0
    requires (m0 + n0) * info.inDtype * k0 <= Room(info, n0)
    ensures Before(RegionA(m0, k0, 0), RegionB(m0, n0, k0, 0))
    ensures Before(RegionB(m0, n0, k0, 0), RegionA(m0, k0, 1))
    ensures Before(RegionA(m0, k0, 1), RegionB(m0, n0, k0, 1))
    ensures RegionB(m0, n0, k0, 1).start + RegionB(m0, n0, k0, 1).len <= 2 * L1AB_PINGPONG_BUFFER_LEN
  {
    TwiceSum(m0, n0, k0);
    WholeBlocks(m0, k0);
  }

  lemma TwiceSum(m0: nat, n0: nat, k0: nat)
    ensures (m0 + n0) * 2 * k0 == BytesOf(m0, k0) + BytesOf(n0, k0)
  {
    MulAssoc(m0 + n0, 2, k0);
    Distribute(m0, n0, 2 * k0);
    Regroup2(m0, k0);
    Regroup2(n0, k0);
  }

  lemma Regroup2(a: nat, k: nat)
    ensures a * (2 * k) == 2 * (a * k)
  {
  }

  lemma WholeBlocks(m0: nat, k0: nat)
    requires m0 % 16 == 0 && k0 % 16 == 0
    ensures RoundUp256(BytesOf(m0, k0)) == BytesOf(m0, k0)
  {
    var a, b := m0 / 16, k0 / 16;
    assert m0 == 16 * a && k0 == 16 * b;
    Blocks(a, b);
    AlignedStays(2 * (a * b));
  }

  lemma Blocks(a: nat, b: nat)
    ensures BytesOf(16 * a, 16 * b) == 2 * (a * b) * 256 && a * b >= 0
  {
  }

  lemma AlignedStays(x: nat)
    ensures RoundUp256(x * 256) == x * 256
  {
  }

  // A loaded tile, padded to whole 16s in both directions, stays inside its region.
  lemma LoadedTileFits(rows: nat, len: nat, m0: nat, k0: nat)
    requires rows <= m0 && len <= k0 && m0 % 16 == 0 && k0 % 16 == 0
    ensures BytesOf(RoundUp16(rows), RoundUp16(len)) <= BytesOf(m0, k0)
  {
    var r, l := RoundUp16(rows), RoundUp16(len);
    MulOrder(r, m0, l);
    MulOrder(l, k0, m0);
    Commute(m0, l);
    Commute(m0, k0);
  }
}
