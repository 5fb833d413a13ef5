/** Rotary embedding of the query heads: the split over cores and loops, and the gathered cos/sin rows. */
module Rope {
  import opened Arith

  const HEAD_DIM: nat := 64
  const CONCAT_SIZE: nat := 512

  // What the host hands to the kernel. Core realCore - 1 takes what the others leave.
  datatype Tiling = Tiling(headNumQ: nat, realCore: nat, nlCoreRun: nat, maxNPerLoopForUb: nat,
                           preCoreLoopTime: nat, preCoreLoopNLast: nat, lastCoreLoopTime: nat, lastCoreLoopNLast: nat)
  {
    function LoopTime(c: nat): nat {
      if c == realCore - 1 then lastCoreLoopTime else preCoreLoopTime
    }

    function LastLoopN(c: nat): nat {
      if c == realCore - 1 then lastCoreLoopNLast else preCoreLoopNLast
    }

    // How many heads core c goes through.
    function Load(c: nat): int {
      (LoopTime(c) - 1) * maxNPerLoopForUb + LastLoopN(c)
    }

    // Every core has at least one loop, every loop at least one head and at most as many as fit.
    ghost predicate Loops(c: nat) {
      LoopTime(c) > 0 && 0 < LastLoopN(c) <= maxNPerLoopForUb
    }

    // The cores' runs of heads tile `all` heads, and the last core's run is not empty and not the longest.
    ghost predicate Covers(all: nat) {
      && headNumQ > 0 && realCore > 0 && Loops(0) && Loops(realCore - 1)
      && (realCore > 1 ==> Load(0) == nlCoreRun)
      && 0 < Load(realCore - 1) <= nlCoreRun
      && (realCore - 1) * nlCoreRun + Load(realCore - 1) == all
    }
  }

  // Splitting n heads into loops of at most `most`.
  lemma LoopsSplit(n: nat, most: nat)
    requires n > 0 && most > 0
    ensures var k := CeilDiv(n, most); k > 0 && 0 < n - (k - 1) * most <= most
  {
    var k := CeilDiv(n, most);
    CeilDivGalois(n, most, 0);
    CeilDivGalois(n, most, k - 1);
    CeilDivGalois(n, most, k);
    assert k * most == (k - 1) * most + most;
  }

  // Cores take `run` heads each, of which no more than `temp` fall to one.
  lemma LastCore(all: nat, temp: nat, cores: nat, run: nat)
    requires all > 0 && temp > 0 && cores == CeilDiv(all, temp) && cores > 0 && run == CeilDiv(all, cores)
    ensures 0 < all - (cores - 1) * run <= run
  {
    CeilDivGalois(all, temp, cores - 1);
    CeilDivGalois(all, temp, cores);
    CeilDivGalois(all, cores, temp);
    CeilDivGalois(all, cores, run);
    MulOrder(run, temp, cores - 1);
    assert (cores - 1) * run + run == cores * run;
  }

  // Balancing `all` heads over at most `most` cores.
  lemma CoresSplit(all: nat, most: nat)
    requires all > 0 && most > 0
    ensures var temp := CeilDiv(all, most);
            temp > 0 && 0 < CeilDiv(all, temp) <= most
  {
    CeilDivGalois(all, most, 0);
    var temp := CeilDiv(all, most);
    CeilDivGalois(all, most, temp);
    CeilDivGalois(all, temp, 0);
    CeilDivGalois(all, temp, most);
  }

  method RopeConcatTiling(ntokens: nat, headNum: nat, coreNumAiv: nat, ubSize: nat) returns (t: Tiling)
    requires ntokens > 0 && headNum > 0 && coreNumAiv > 0
    requires ubSize >= HEAD_DIM * (3 * (4 + 2) + 2 * 4) + CONCAT_SIZE * 2
    ensures t.headNumQ == headNum && t.realCore <= coreNumAiv && t.Covers(ntokens * headNum)
  {
    var headNumQ := HEAD_DIM * headNum / HEAD_DIM;
    var allHeadNum: nat := ntokens * headNumQ;
    assert ntokens * headNum >= 1;
    CoresSplit(allHeadNum, coreNumAiv);
    var tempCore: nat := (allHeadNum + coreNumAiv - 1) / coreNumAiv;
    var realCore: nat := (allHeadNum + tempCore - 1) / tempCore;
    var nlCoreRun: nat := (allHeadNum + realCore - 1) / realCore;
    LastCore(allHeadNum, tempCore, realCore, nlCoreRun);
    var lCoreRun := allHeadNum - (realCore - 1) * nlCoreRun;
    var allSize := HEAD_DIM * (3 * (4 + 2) + 2 * 4) + CONCAT_SIZE * 2;
    var maxN: nat := ubSize / allSize;
    LoopsSplit(nlCoreRun, maxN);
    LoopsSplit(lCoreRun, maxN);
    var preCoreLoopTime: nat := (nlCoreRun + maxN - 1) / maxN;
    var preCoreLoopNLast := nlCoreRun - (preCoreLoopTime - 1) * maxN;
    var lastCoreLoopTime: nat := (lCoreRun + maxN - 1) / maxN;
    var lastCoreLoopNLast := lCoreRun - (lastCoreLoopTime - 1) * maxN;
    t := Tiling(headNumQ, realCore, nlCoreRun, maxN, preCoreLoopTime, preCoreLoopNLast, lastCoreLoopTime,
                lastCoreLoopNLast);
  }

  // A head's row, and the cos and sin rows of one token.
  type Row = seq<int>

  datatype Angle = Angle(cos: Row, sin: Row)

  ghost predicate Fits(r: Row) {
    |r| == HEAD_DIM
  }

  ghost predicate AllFit(q: seq<Row>, angles: seq<Angle>) {
    && (forall h :: 0 <= h < |q| ==> Fits(q[h]))
    && forall i :: 0 <= i < |angles| ==> Fits(angles[i].cos) && Fits(angles[i].sin)
  }

  // The rotated row: column d and the column half a row away are turned against each other.
  function Rotated(q: Row, a: Angle): (r: Row)
    requires Fits(q) && Fits(a.cos) && Fits(a.sin)
    ensures Fits(r)
  {
    seq(HEAD_DIM, d requires 0 <= d < HEAD_DIM =>
      if d < HEAD_DIM / 2 then q[d] * a.cos[d] - q[d + HEAD_DIM / 2] * a.sin[d]
      else q[d] * a.cos[d] + q[d - HEAD_DIM / 2] * a.sin[d])
  }

  // The direction of the turn: the row with 1 in column d of the first half goes to cos in that column and sin in
  // the column half a row on, and the one with 1 there goes to minus sin and cos.
  lemma UnitTurns(q: Row, a: Angle, d: nat)
    requires |q| == |a.cos| == |a.sin| == 64 && d < 32
    requires forall k :: 0 <= k < 64 && k != d && k != d + 32 ==> q[k] == 0
    ensures |Rotated(q, a)| == 64
    ensures q[d] == 1 && q[d + 32] == 0 ==> Rotated(q, a)[d] == a.cos[d] && Rotated(q, a)[d + 32] == a.sin[d + 32]
    ensures q[d] == 0 && q[d + 32] == 1 ==> Rotated(q, a)[d] == -a.sin[d] && Rotated(q, a)[d + 32] == a.cos[d + 32]
    ensures forall k :: 0 <= k < 64 && k != d && k != d + 32 ==> Rotated(q, a)[k] == 0
  {
    forall k | 0 <= k < 64 && k != d && k != d + 32
      ensures Rotated(q, a)[k] == 0
    {
      assert q[if k < 32 then k + 32 else k - 32] == 0;
    }
  }

  // With the two halves of the cos and sin rows equal, every pair of columns is turned by one angle: its
  // length is scaled by the angle's.
  lemma RotationScales(q: Row, a: Angle, d: nat)
    requires Fits(q) && Fits(a.cos) && Fits(a.sin) && d < HEAD_DIM / 2
    requires a.cos[d] == a.cos[d + HEAD_DIM / 2] && a.sin[d] == a.sin[d + HEAD_DIM / 2]
    ensures var r, m := Rotated(q, a), HEAD_DIM / 2;
            r[d] * r[d] + r[d + m] * r[d + m] ==
            (q[d] * q[d] + q[d + m] * q[d + m]) * (a.cos[d] * a.cos[d] + a.sin[d] * a.sin[d])
  {
    Brahmagupta(q[d], q[d + HEAD_DIM / 2], a.cos[d], a.sin[d]);
  }

  lemma Brahmagupta(x: int, y: int, c: int, s: int)
    ensures (x * c - y * s) * (x * c - y * s) + (y * c + x * s) * (y * c + x * s) == (x * x + y * y) * (c * c + s * s)
  {
    Square(x * c, y * s);
    Square(y * c, -(x * s));
    assert (x * c) * (y * s) == (y * c) * (x * s);
    assert (x * c) * (x * c) == (x * x) * (c * c) && (y * s) * (y * s) == (y * y) * (s * s);
    assert (y * c) * (y * c) == (y * y) * (c * c) && (x * s) * (x * s) == (x * x) * (s * s);
  }

  lemma Square(a: int, b: int)
    ensures (a - b) * (a - b) == a * a - 2 * (a * b) + b * b
  {
  }

  function Mul(a: Row, b: Row): (r: Row)
    requires |a| == |b|
    ensures |r| == |a| && forall d :: 0 <= d < |a| ==> r[d] == a[d] * b[d]
  {
    seq(|a|, d requires 0 <= d < |a| => a[d] * b[d])
  }

  function Add(a: Row, b: Row): (r: Row)
    requires |a| == |b|
    ensures |r| == |a| && forall d :: 0 <= d < |a| ==> r[d] == a[d] + b[d]
  {
    seq(|a|, d requires 0 <= d < |a| => a[d] + b[d])
  }

  // The row with its halves exchanged, and the signs that go with it.
  function Reverse(q: Row): (r: Row)
    requires Fits(q)
    ensures Fits(r)
    ensures forall d :: 0 <= d < HEAD_DIM ==> r[d] == if d < HEAD_DIM / 2 then q[d + HEAD_DIM / 2] else q[d - HEAD_DIM / 2]
  {
    q[HEAD_DIM / 2..] + q[..HEAD_DIM / 2]
  }

  function Neg(): (r: Row)
    ensures Fits(r) && forall d :: 0 <= d < HEAD_DIM ==> r[d] == if d < HEAD_DIM / 2 then -1 else 1
  {
    seq(HEAD_DIM, d requires 0 <= d => if d < HEAD_DIM / 2 then -1 else 1)
  }

  lemma Turn(x: int, y: int, c: int, s: int)
    ensures s * (-1 * y) + c * x == x * c - y * s && s * (1 * y) + c * x == x * c + y * s
  {
    assert s * (-1 * y) == -(y * s);
  }

  // The vector instructions on one head.
  method Rotate(q: Row, a: Angle) returns (r: Row)
    requires Fits(q) && Fits(a.cos) && Fits(a.sin)
    ensures r == Rotated(q, a)
  {
    var inputQ := Mul(a.cos, q);
    var reverseQ := Mul(a.sin, Mul(Neg(), Reverse(q)));
    r := Add(reverseQ, inputQ);
    forall d | 0 <= d < HEAD_DIM
      ensures r[d] == Rotated(q, a)[d]
    {
      Turn(q[d], Reverse(q)[d], a.cos[d], a.sin[d]);
    }
  }

  // CopyCosSin: `repeatNum` copies of one token's rows.
  method CopyCosSin(local: array<Angle>, at: nat, a: Angle, repeatNum: nat)
    requires at + repeatNum <= local.Length
    modifies local
    ensures forall k :: 0 <= k < local.Length ==> local[k] == if at <= k < at + repeatNum then a else old(local[k])
  {
    forall k | at <= k < at + repeatNum {
      local[k] := a;
    }
  }

  // The tokens of the heads from startHead on, as far as they have been copied.
  ghost predicate Copied(local: seq<Angle>, table: seq<Angle>, startHead: nat, n: nat, headNumQ: nat)
    requires headNumQ > 0
  {
    n <= |local| && forall k :: 0 <= k < n ==> HeadHas(local, table, startHead, k, headNumQ)
  }

  ghost predicate HeadHas(local: seq<Angle>, table: seq<Angle>, startHead: nat, k: nat, headNumQ: nat)
    requires headNumQ > 0 && k < |local|
  {
    (startHead + k) / headNumQ < |table| && local[k] == table[(startHead + k) / headNumQ]
  }

  // One run of heads of the token `index`.
  method CopyRun(local: array<Angle>, table: seq<Angle>, startHead: nat, at: nat, index: nat, repeatNum: nat,
                 headNumQ: nat)
    requires headNumQ > 0 && index < |table| && at + repeatNum <= local.Length
    requires index * headNumQ <= startHead + at && startHead + at + repeatNum <= index * headNumQ + headNumQ
    requires Copied(local[..], table, startHead, at, headNumQ)
    modifies local
    ensures Copied(local[..], table, startHead, at + repeatNum, headNumQ)
  {
    CopyCosSin(local, at, table[index], repeatNum);
    forall k | at <= k < at + repeatNum
      ensures HeadHas(local[..], table, startHead, k, headNumQ)
    {
      DivUnique(startHead + k, headNumQ, index);
    }
    forall k | 0 <= k < at
      ensures HeadHas(local[..], table, startHead, k, headNumQ)
    {
      assert HeadHas(old(local[..]), table, startHead, k, headNumQ);
    }
  }

  // The token of a head within the table, and how far its heads reach.
  lemma TokenOf(head: nat, headNumQ: nat, tokens: nat) returns (p: nat, rest: nat)
    requires headNumQ > 0 && head < tokens * headNumQ
    ensures p == head / headNumQ < tokens && rest == head % headNumQ < headNumQ
    ensures p * headNumQ + rest == head && (head + (headNumQ - rest)) % headNumQ == 0
  {
    p, rest := head / headNumQ, head % headNumQ;
    DivBounds(head, headNumQ);
    MulOrder(tokens, p, headNumQ);
    DivUnique(p * headNumQ + headNumQ, headNumQ, p + 1);
  }

  // Token `index` has heads before endHead, up to headNumQ of them, and the last such token has the last.
  lemma TokenRun(index: nat, endHead: nat, headNumQ: nat, tokens: nat)
    requires headNumQ > 0 && index < CeilDiv(endHead, headNumQ) && endHead <= tokens * headNumQ
    ensures index < tokens && index * headNumQ < endHead
    ensures if index + 1 < CeilDiv(endHead, headNumQ) then index * headNumQ + headNumQ < endHead
            else endHead <= index * headNumQ + headNumQ
    ensures index * headNumQ + headNumQ == (index + 1) * headNumQ
  {
    CeilDivGalois(endHead, headNumQ, index);
    CeilDivGalois(endHead, headNumQ, index + 1);
    MulOrder(tokens, index, headNumQ);
  }

  // The heads that are left of the first token.
  method RestOfToken(local: array<Angle>, table: seq<Angle>, startHead: nat, loopN: nat, headNumQ: nat)
    returns (needToProcesHead: nat)
    requires headNumQ > 0 && 0 < loopN <= local.Length && startHead + loopN <= |table| * headNumQ
    modifies local
    ensures needToProcesHead <= loopN && Copied(local[..], table, startHead, needToProcesHead, headNumQ)
    ensures needToProcesHead == loopN || (startHead + needToProcesHead) % headNumQ == 0
  {
    needToProcesHead := 0;
    ghost var p, rest := TokenOf(startHead, headNumQ, |table|);
    var headRemain: nat := startHead % headNumQ;
    if headRemain != 0 {
      var preProcessHeadNum: nat := headNumQ - headRemain;
      needToProcesHead := if preProcessHeadNum > loopN then loopN else preProcessHeadNum;
      FirstRun(local, table, startHead, startHead / headNumQ, headRemain, needToProcesHead, headNumQ);
    }
  }

  method FirstRun(local: array<Angle>, table: seq<Angle>, startHead: nat, index: nat, headRemain: nat, n: nat,
                  headNumQ: nat)
    requires headNumQ > 0 && index < |table| && n <= local.Length
    requires startHead == index * headNumQ + headRemain && headRemain + n <= headNumQ
    modifies local
    ensures Copied(local[..], table, startHead, n, headNumQ)
  {
    CopyRun(local, table, startHead, 0, index, n, headNumQ);
  }

  // Head k of a loop gets the rows of token (startHead + k) / headNumQ: the rest of the first token, whole
  // tokens, and the beginning of the last.
  method GatherAngles(local: array<Angle>, table: seq<Angle>, startHead: nat, loopN: nat, headNumQ: nat)
    requires headNumQ > 0 && 0 < loopN <= local.Length && startHead + loopN <= |table| * headNumQ
    modifies local
    ensures Copied(local[..], table, startHead, loopN, headNumQ)
  {
    var localStartAddr := RestOfToken(local, table, startHead, loopN, headNumQ);
    var startSinCosHeadIndex := startHead + localStartAddr;
    if startSinCosHeadIndex < startHead + loopN {
      WholeTokens(local, table, startHead, loopN, headNumQ, startSinCosHeadIndex, localStartAddr);
    }
  }

  method WholeTokens(local: array<Angle>, table: seq<Angle>, startHead: nat, loopN: nat, headNumQ: nat,
                     startSinCosHeadIndex: nat, at: nat)
    requires headNumQ > 0 && loopN <= local.Length && startHead + loopN <= |table| * headNumQ
    requires startSinCosHeadIndex == startHead + at < startHead + loopN && startSinCosHeadIndex % headNumQ == 0
    requires Copied(local[..], table, startHead, at, headNumQ)
    modifies local
    ensures Copied(local[..], table, startHead, loopN, headNumQ)
  {
    var endHead := startHead + loopN;
    ghost var p, rest := TokenOf(startSinCosHeadIndex, headNumQ, |table|);
    CeilDivGalois(endHead, headNumQ, startSinCosHeadIndex / headNumQ);
    TokenLoop(local, table, startHead, loopN, headNumQ, startSinCosHeadIndex / headNumQ,
              (endHead + headNumQ - 1) / headNumQ, at);
  }

  method TokenLoop(local: array<Angle>, table: seq<Angle>, startHead: nat, loopN: nat, headNumQ: nat,
                   startSinCosIndex: nat, endSinCosIndex: nat, at: nat)
    requires headNumQ > 0 && loopN <= local.Length && startHead + loopN <= |table| * headNumQ
    requires startHead + at == startSinCosIndex * headNumQ && startSinCosIndex < endSinCosIndex
    requires endSinCosIndex == CeilDiv(startHead + loopN, headNumQ)
    requires Copied(local[..], table, startHead, at, headNumQ)
    modifies local
    ensures Copied(local[..], table, startHead, loopN, headNumQ)
  {
    var endHead := startHead + loopN;
    var index := startSinCosIndex;
    var localStartAddr, done := at, at;
    while index < endSinCosIndex
      invariant index < endSinCosIndex ==> done == localStartAddr && startHead + localStartAddr == index * headNumQ
      invariant index >= endSinCosIndex ==> done == loopN
      invariant Copied(local[..], table, startHead, done, headNumQ)
    {
      TokenRun(index, endHead, headNumQ, |table|);
      var repeatNum := if index == endSinCosIndex - 1 then endHead - index * headNumQ else headNumQ;
      CopyRun(local, table, startHead, localStartAddr, index, repeatNum, headNumQ);
      done := localStartAddr + repeatNum;
      localStartAddr := localStartAddr + headNumQ;
      index := index + 1;
    }
  }

  // Head h of q is turned by the rows of token h / headNumQ: columns d and d + 32 against each other.
  ghost predicate Turned(out: seq<Row>, q: seq<Row>, table: seq<Angle>, headNumQ: nat, h: nat)
    requires headNumQ > 0 && AllFit(q, table)
  {
    && h < |q| == |out| && |out[h]| == 64 && h / headNumQ < |table|
    && var cos, sin := table[h / headNumQ].cos, table[h / headNumQ].sin;
       forall d :: 0 <= d < 32 ==>
         && out[h][d] == q[h][d] * cos[d] - q[h][d + 32] * sin[d]
         && out[h][d + 32] == q[h][d + 32] * cos[d + 32] + q[h][d] * sin[d + 32]
  }

  lemma TurnedIs(out: seq<Row>, q: seq<Row>, table: seq<Angle>, headNumQ: nat, h: nat)
    requires headNumQ > 0 && AllFit(q, table) && h < |q| == |out| && 0 <= h / headNumQ < |table|
    requires out[h] == Rotated(q[h], table[h / headNumQ])
    ensures Turned(out, q, table, headNumQ, h)
  {
  }

  // Heads lo .. hi - 1 are turned.
  ghost predicate AllTurned(out: seq<Row>, q: seq<Row>, table: seq<Angle>, headNumQ: nat, lo: nat, hi: nat)
    requires headNumQ > 0 && AllFit(q, table)
  {
    forall h :: lo <= h < hi ==> Turned(out, q, table, headNumQ, h)
  }

  // ... and all others are as before.
  ghost predicate OnlyChanged(before: seq<Row>, after: seq<Row>, lo: nat, hi: nat) {
    |after| == |before| && forall h :: 0 <= h < |before| && !(lo <= h < hi) ==> after[h] == before[h]
  }

  lemma TurnedJoin(before: seq<Row>, after: seq<Row>, q: seq<Row>, table: seq<Angle>, headNumQ: nat, lo: nat, mid: nat, hi: nat)
    requires headNumQ > 0 && AllFit(q, table) && lo <= mid <= hi
    requires AllTurned(before, q, table, headNumQ, lo, mid) && AllTurned(after, q, table, headNumQ, mid, hi)
    requires OnlyChanged(before, after, mid, hi)
    ensures AllTurned(after, q, table, headNumQ, lo, hi)
  {
    forall h | lo <= h < hi
      ensures Turned(after, q, table, headNumQ, h)
    {
      assert h < mid ==> Turned(before, q, table, headNumQ, h);
    }
  }

  // One loop: heads startHead .. startHead + loopN - 1.
  method TurnHeads(out: array<Row>, q: seq<Row>, table: seq<Angle>, local: array<Angle>, startHead: nat, loopN: nat,
                   headNumQ: nat)
    requires headNumQ > 0 && AllFit(q, table) && out.Length == |q| && startHead + loopN <= |q|
    requires Copied(local[..], table, startHead, loopN, headNumQ)
    modifies out
    ensures AllTurned(out[..], q, table, headNumQ, startHead, startHead + loopN)
    ensures OnlyChanged(old(out[..]), out[..], startHead, startHead + loopN)
  {
    ghost var was, angles := out[..], local[..];
    for k := 0 to loopN
      invariant AllTurned(out[..], q, table, headNumQ, startHead, startHead + k)
      invariant OnlyChanged(was, out[..], startHead, startHead + k)
      invariant local[..] == angles
    {
      assert HeadHas(angles, table, startHead, k, headNumQ);
      ghost var before := out[..];
      var row := Rotate(q[startHead + k], local[k]);
      out[startHead + k] := row;
      TurnedIs(out[..], q, table, headNumQ, startHead + k);
      TurnedJoin(before, out[..], q, table, headNumQ, startHead, startHead + k, startHead + k + 1);
    }
  }

  // Heads lo .. hi - 1 in order.
  function Heads(lo: nat, hi: nat): (r: seq<nat>)
    requires lo <= hi
    ensures |r| == hi - lo && forall k :: 0 <= k < hi - lo ==> r[k] == lo + k
  {
    seq(hi - lo, k requires 0 <= k => lo + k)
  }

  lemma HeadsJoin(a: nat, b: nat, c: nat)
    requires a <= b <= c
    ensures Heads(a, b) + Heads(b, c) == Heads(a, c)
  {
  }

  // Where loop zz of n heads, `most` at a time, begins, and how many it takes.
  lemma LoopIn(times: nat, zz: nat, most: nat, last: nat)
    requires zz < times && 0 < last <= most
    ensures var loopN := if zz == times - 1 then last else most;
            zz * most + loopN <= (times - 1) * most + last
    ensures zz < times - 1 ==> zz * most + most == (zz + 1) * most
    ensures zz == times - 1 ==> zz * most + last == (times - 1) * most + last
  {
    MulOrder(zz, times - 1, most);
  }

  // The share of one core: its heads are turned, in order, whatever was done before, and no others are touched.
  method Process(t: Tiling, blockIdx: nat, out: array<Row>, q: seq<Row>, table: seq<Angle>) returns (heads: seq<nat>)
    requires t.headNumQ > 0 && AllFit(q, table) && out.Length == |q| == |table| * t.headNumQ
    requires blockIdx < t.realCore ==> t.Loops(blockIdx) && blockIdx * t.nlCoreRun + t.Load(blockIdx) <= |q|
    modifies out
    ensures blockIdx >= t.realCore ==> heads == [] && out[..] == old(out[..])
    ensures blockIdx < t.realCore ==>
              var start := blockIdx * t.nlCoreRun;
              && 0 <= t.Load(blockIdx)
              && heads == Heads(start, start + t.Load(blockIdx))
              && AllTurned(out[..], q, table, t.headNumQ, start, start + t.Load(blockIdx))
              && OnlyChanged(old(out[..]), out[..], start, start + t.Load(blockIdx))
  {
    heads := [];
    if blockIdx >= t.realCore {
      return;
    }
    var start: nat := blockIdx * t.nlCoreRun;
    var loopTime, lastLoopN := t.LoopTime(blockIdx), t.LastLoopN(blockIdx);
    heads := CoreLoops(out, q, table, start, loopTime, lastLoopN, t.maxNPerLoopForUb, t.headNumQ);
  }

  method CoreLoops(out: array<Row>, q: seq<Row>, table: seq<Angle>, start: nat, loopTime: nat, lastLoopN: nat,
                   maxN: nat, headNumQ: nat) returns (heads: seq<nat>)
    requires headNumQ > 0 && AllFit(q, table) && out.Length == |q| == |table| * headNumQ
    requires loopTime > 0 && 0 < lastLoopN <= maxN && start + (loopTime - 1) * maxN + lastLoopN <= |q|
    modifies out
    ensures var end := start + (loopTime - 1) * maxN + lastLoopN;
            && start <= end && heads == Heads(start, end)
            && AllTurned(out[..], q, table, headNumQ, start, end) && OnlyChanged(old(out[..]), out[..], start, end)
  {
    heads := [];
    var local := new Angle[maxN];
    var done: nat := start;
    for zz := 0 to loopTime
      invariant start <= done <= |q| && heads == Heads(start, done)
      invariant done == if zz < loopTime then start + zz * maxN else start + (loopTime - 1) * maxN + lastLoopN
      invariant AllTurned(out[..], q, table, headNumQ, start, done) && OnlyChanged(old(out[..]), out[..], start, done)
    {
      LoopIn(loopTime, zz, maxN, lastLoopN);
      var loopN := if zz == loopTime - 1 then lastLoopN else maxN;
      var startHead := start + zz * maxN;
      GatherAngles(local, table, startHead, loopN, headNumQ);
      ghost var before := out[..];
      TurnHeads(out, q, table, local, startHead, loopN, headNumQ);
      TurnedJoin(before, out[..], q, table, headNumQ, start, done, done + loopN);
      HeadsJoin(start, done, done + loopN);
      heads := heads + Heads(startHead, startHead + loopN);
      done := done + loopN;
    }
  }

  // All cores together turn every head of every token, once and in order.
  method Launch(t: Tiling, coreNum: nat, out: array<Row>, q: seq<Row>, table: seq<Angle>) returns (heads: seq<nat>)
    requires t.Covers(|q|) && t.realCore <= coreNum
    requires AllFit(q, table) && out.Length == |q| == |table| * t.headNumQ
    modifies out
    ensures heads == Heads(0, |q|)
    ensures AllTurned(out[..], q, table, t.headNumQ, 0, |q|)
  {
    heads := [];
    var done: nat := 0;
    for blockIdx := 0 to coreNum
      invariant done == (if blockIdx < t.realCore then blockIdx * t.nlCoreRun else |q|) && done <= |q|
      invariant heads == Heads(0, done) && AllTurned(out[..], q, table, t.headNumQ, 0, done)
    {
      CoreShare(t, blockIdx, |q|);
      ghost var before := out[..];
      var more := Process(t, blockIdx, out, q, table);
      if blockIdx < t.realCore {
        HeadsJoin(0, done, done + |more|);
        TurnedJoin(before, out[..], q, table, t.headNumQ, 0, done, done + |more|);
        done := done + |more|;
      }
      heads := heads + more;
    }
  }

  lemma CoreShare(t: Tiling, c: nat, all: nat)
    requires t.Covers(all)
    ensures c < t.realCore ==> t.Loops(c) && 0 < c * t.nlCoreRun + t.Load(c) <= all && t.Load(c) >= 0
    ensures c < t.realCore ==> c * t.nlCoreRun + t.Load(c) == if c + 1 < t.realCore then (c + 1) * t.nlCoreRun else all
  {
    if c < t.realCore {
      MulOrder(c, t.realCore - 1, t.nlCoreRun);
    }
  }
}
