/** The cache-assign kernel as a state machine over every interleaving of its cores: each row is copied in
    chunks; the last chunk is rounded up to whole 32-byte blocks, is merged with what the destination held,
    and is written in the order in which a ring of flags hands on the turn. */
module AssignCache {
  import opened Arith
  import opened Buffers
  import opened Swizzle
  import S = ServiceOrder

  // `len` elements from src on go to dst on; the tail may spill over the end.
  datatype Row = Row(dst: nat, src: nat, len: nat)

  // `unit` elements fit a chunk, `blk` elements make a 32-byte block.
  datatype Job = Job(cores: nat, blk: nat, unit: nat, rows: seq<Row>, src: seq<int>)
  {
    // Chunks are whole blocks, rows lie one behind the other, and the source holds them.
    ghost predicate Valid(size: nat) {
      && cores > 0 && blk > 0 && unit > 0 && unit % blk == 0
      && (forall r, q :: 0 <= r < q < |rows| ==> rows[r].dst + rows[r].len <= rows[q].dst)
      && (forall r :: 0 <= r < |rows| ==> rows[r].src + rows[r].len <= |src| && Reach(r) <= size)
    }

    // Elements of the last chunk, and of all before it.
    function Tail(r: nat): (t: nat)
      requires unit > 0 && r < |rows|
    {
      if rows[r].len > 0 && rows[r].len % unit == 0 then unit
      else
        DivModIs(rows[r].len, unit);
        rows[r].len % unit
    }

    // The last chunk in whole blocks.
    function Width(n: nat): (w: nat)
      requires blk > 0
      ensures n <= w < n + blk && w % blk == 0
    {
      RoundUpBounds(n, blk);
      RoundUp(n, blk)
    }

    // End of all a row writes.
    function Reach(r: nat): nat
      requires blk > 0 && unit > 0 && r < |rows|
    {
      TailBounds(rows[r].len, unit);
      rows[r].dst + (rows[r].len - Tail(r)) + Width(Tail(r))
    }

    ghost predicate InRange(r: nat, a: int)
      requires r < |rows|
    {
      rows[r].dst <= a < rows[r].dst + rows[r].len
    }

    // No row's range holds the place.
    ghost predicate Free(a: int) {
      forall r :: 0 <= r < |rows| ==> !InRange(r, a)
    }

    // The source element that belongs at place a of row r's range.
    function Want(r: nat, a: int): int
      requires r < |rows|
    {
      var k := rows[r].src + (a - rows[r].dst);
      if 0 <= k < |src| then src[k] else 0
    }

    // Which rows have anything to copy.
    function Busy(): (b: seq<bool>)
      ensures |b| == |rows| && forall r :: 0 <= r < |rows| ==> b[r] == (rows[r].len > 0)
    {
      seq(|rows|, r requires 0 <= r < |rows| => rows[r].len > 0)
    }

    // The turn in which the ring lets row r write its last chunk: an empty row takes no turn, so rows of
    // different cores need not be served in row order.
    function Pos(r: nat): nat
      requires cores > 0 && r < |rows|
    {
      S.Pos(cores, Busy(), r)
    }

    // Row q is done before row r begins.
    predicate Before(q: nat, r: nat)
      requires cores > 0 && q < |rows| && r < |rows|
    {
      rows[q].len > 0 && rows[r].len > 0 && Pos(q) + cores <= Pos(r)
    }

    // Row r can write its last chunk over a part of row q that is copied since row r read it: row q comes less
    // than a round later and copies chunks before its turn, or it comes less than a round earlier.
    predicate Meets(r: nat, q: nat)
      requires cores > 0 && r < |rows| && q < |rows|
    {
      && rows[r].len > 0 && rows[q].len > 0
      && ((Pos(r) < Pos(q) < Pos(r) + cores && rows[q].len > unit) || Pos(q) < Pos(r) < Pos(q) + cores)
    }

    // No spill reaches a row that it can harm.
    ghost predicate SpillsAreSafe()
      requires cores > 0 && blk > 0 && unit > 0
    {
      forall r, q :: 0 <= r < q < |rows| && Meets(r, q) ==> Reach(r) <= rows[q].dst
    }

    // The turn can go from core to core until every row that is not empty had it: row 0, which waits for
    // nobody, starts the ring, every core has its share of the turns, and the last row, which sets no flag,
    // has the last one.
    predicate RingCloses()
      requires cores > 0
    {
      var n, turns := |rows|, S.Total(Busy(), |rows|);
      turns == 0
      || (&& rows[0].len > 0
          && (forall k :: 0 <= k < cores ==> S.Turns(cores, k, Busy(), n) == S.Share(cores, k, turns))
          && (rows[n - 1].len > 0 ==> (n - 1) % cores == (turns - 1) % cores))
    }
  }

  function RoundUp(n: nat, b: nat): int
    requires b > 0
  {
    (n + b - 1) / b * b
  }

  lemma RoundUpBounds(n: nat, b: nat)
    requires b > 0
    ensures n <= RoundUp(n, b) < n + b && RoundUp(n, b) % b == 0
  {
    DivBounds(n + b - 1, b);
    DivModOfSum((n + b - 1) / b, b, 0);
  }

  lemma TailBounds(len: nat, unit: nat)
    requires unit > 0
    ensures len > 0 && len % unit == 0 ==> unit <= len
    ensures 0 <= len % unit <= len
  {
    DivModIs(len, unit);
    NonNegative(len / unit, unit);
    if len > 0 && len % unit == 0 {
      MulOrder(1, len / unit, unit);
    }
  }

  // Where a row stands: `off` elements are copied; the last chunk is in the buffer; the flag of the row
  // before was taken; the last chunk is written; the row's own flag is set.
  datatype Phase = Copying(off: nat) | Loaded(off: nat, buf: seq<int>) | Granted(off: nat, buf: seq<int>) | Written | Finished

  datatype State = State(dst: seq<int>, phases: seq<Phase>, flags: seq<int>)

  datatype Step =
    | Early(r: nat)                  // a chunk before the last
    | Load(r: nat, buf: seq<int>)    // the last chunk: source and destination are read
    | Wait(r: nat)                   // ... the flag of the row before is taken
    | Put(r: nat)                    // ... the chunk is written
    | Set(r: nat)                    // ... the row's flag is set
    | Skip(r: nat)                   // an empty row does nothing at all

  ghost predicate Fits(j: Job, s: State) {
    |s.phases| == |j.rows| && |s.flags| == j.cores > 0
  }

  // A core takes its rows one after the other.
  ghost predicate CanStart(j: Job, s: State, r: nat)
    requires Fits(j, s) && r < |j.rows|
  {
    r < j.cores || s.phases[r - j.cores].Finished?
  }

  // Row q is about to put another value at place a, or is doing so.
  ghost predicate Changes(j: Job, s: State, q: nat, a: int)
    requires Fits(j, s) && q < |j.rows|
  {
    0 <= a < |s.dst| &&
    match s.phases[q]
    case Copying(off) =>
      && CanStart(j, s, q) && off + j.unit < j.rows[q].len
      && j.rows[q].dst + off <= a < j.rows[q].dst + off + j.unit
      && var k := j.rows[q].src + off + (a - (j.rows[q].dst + off));
         k < |j.src| && s.dst[a] != j.src[k]
    case Granted(off, buf) =>
      && j.rows[q].dst + off <= a < j.rows[q].dst + off + |buf| && s.dst[a] != buf[a - (j.rows[q].dst + off)]
    case _ => false
  }

  // Another row is changing place a.
  ghost predicate Disturbed(j: Job, s: State, r: nat, a: int)
    requires Fits(j, s)
  {
    exists q :: 0 <= q < |j.rows| && q != r && Changes(j, s, q, a)
  }

  // What a buffered last chunk holds of the row itself.
  ghost predicate OwnPart(j: Job, r: nat, off: nat, buf: seq<int>)
    requires r < |j.rows|
  {
    forall i :: 0 <= i < |buf| && i < j.rows[r].len - off && j.rows[r].src + off + i < |j.src| ==>
      buf[i] == j.src[j.rows[r].src + off + i]
  }

  // The last chunk: its own part comes from the source; behind it stands what a core reads of the
  // destination, which is exactly what stands there, unless another row is just changing it.
  ghost predicate MayRead(j: Job, s: State, r: nat, off: nat, buf: seq<int>)
    requires Fits(j, s) && r < |j.rows| && off <= j.rows[r].len && j.blk > 0
  {
    var row := j.rows[r];
    && |buf| == j.Width(row.len - off)
    && OwnPart(j, r, off, buf)
    && forall i :: row.len - off <= i < |buf| && row.dst + off + i < |s.dst| ==>
         buf[i] == s.dst[row.dst + off + i] || Disturbed(j, s, r, row.dst + off + i)
  }

  ghost predicate Enabled(j: Job, s: State, step: Step)
    requires Fits(j, s) && j.Valid(|s.dst|)
  {
    && step.r < |j.rows|
    && var row, phase := j.rows[step.r], s.phases[step.r];
       match step
       case Early(r) => phase.Copying? && phase.off + j.unit < row.len && CanStart(j, s, r)
       case Load(r, buf) =>
         && phase.Copying? && phase.off < row.len <= phase.off + j.unit && CanStart(j, s, r)
         && MayRead(j, s, r, phase.off, buf)
       case Wait(r) => phase.Loaded? && (r == 0 || Flag(j, s, r - 1) > 0)
       case Put(r) => phase.Granted? && row.dst + phase.off + |phase.buf| <= |s.dst|
       case Set(r) => phase.Written?
       case Skip(r) => row.len == 0 && phase.Copying? && CanStart(j, s, r)
  }

  // The flag that row r sets.
  function FlagIndex(j: Job, r: nat): (i: nat)
    requires j.cores > 0
    ensures i < j.cores
  {
    DivModIs(r, j.cores);
    r % j.cores
  }

  ghost function Flag(j: Job, s: State, r: nat): int
    requires Fits(j, s)
  {
    s.flags[FlagIndex(j, r)]
  }

  ghost function AddFlag(j: Job, s: State, r: nat, d: int): State
    requires Fits(j, s)
  {
    s.(flags := s.flags[FlagIndex(j, r) := Flag(j, s, r) + d])
  }

  ghost function Moved(j: Job, s: State, r: nat, p: Phase): State
    requires Fits(j, s) && r < |j.rows|
  {
    s.(phases := s.phases[r := p])
  }

  ghost function After(j: Job, s: State, step: Step): State
    requires Fits(j, s) && j.Valid(|s.dst|) && Enabled(j, s, step)
  {
    var row, phase := j.rows[step.r], s.phases[step.r];
    match step
    case Early(r) =>
      Inside(j, r, |s.dst|);
      Moved(j, s.(dst := Patch(s.dst, row.dst + phase.off, j.src[row.src + phase.off..row.src + phase.off + j.unit])),
            r, Copying(phase.off + j.unit))
    case Load(r, buf) => Moved(j, s, r, Loaded(phase.off, buf))
    case Wait(r) =>
      var s' := Moved(j, s, r, Granted(phase.off, phase.buf));
      if r == 0 then s' else AddFlag(j, s', r - 1, -1)
    case Put(r) => Moved(j, s.(dst := Patch(s.dst, row.dst + phase.off, phase.buf)), r, Written)
    case Set(r) =>
      var s' := Moved(j, s, r, Finished);
      if r == |j.rows| - 1 then s' else AddFlag(j, s', r, 1)
    case Skip(r) => Moved(j, s, r, Finished)
  }

  lemma Inside(j: Job, r: nat, size: nat)
    requires j.Valid(size) && r < |j.rows|
    ensures j.rows[r].dst + j.rows[r].len <= j.Reach(r) <= size
  {
  }

  ghost predicate Next(j: Job, s: State, s': State) {
    Fits(j, s) && j.Valid(|s.dst|) && exists step :: Enabled(j, s, step) && s' == After(j, s, step)
  }

  ghost predicate Init(j: Job, s: State) {
    && Fits(j, s) && j.Valid(|s.dst|)
    && (forall r :: 0 <= r < |s.phases| ==> s.phases[r] == Copying(0))
    && forall i :: 0 <= i < |s.flags| ==> s.flags[i] == 0
  }

  ghost predicate Link(j: Job, t: seq<State>, i: nat)
    requires i < |t| - 1
  {
    Next(j, t[i], t[i + 1])
  }

  ghost predicate Chained(j: Job, t: seq<State>) {
    forall i :: 0 <= i < |t| - 1 ==> Link(j, t, i)
  }

  lemma NextInChain(j: Job, t: seq<State>, i: nat)
    requires Chained(j, t) && 0 < i < |t|
    ensures Next(j, t[i - 1], t[i])
  {
    assert Link(j, t, i - 1);
  }

  // A run: any interleaving, of any length.
  ghost predicate Run(j: Job, t: seq<State>) {
    t != [] && Init(j, t[0]) && Chained(j, t)
  }

  ghost predicate AllFinished(s: State) {
    forall r :: 0 <= r < |s.phases| ==> s.phases[r].Finished?
  }

  // What the launch is to leave: every row's range holds its source, every other place is as before.
  ghost predicate Copied(j: Job, before: seq<int>, after: seq<int>)
    requires j.Valid(|before|)
  {
    && |after| == |before|
    && (forall r, a :: 0 <= r < |j.rows| && j.rows[r].dst <= a < j.rows[r].dst + j.rows[r].len ==>
          a < |after| && after[a] == j.src[j.rows[r].src + (a - j.rows[r].dst)])
    && forall a :: 0 <= a < |after| ==>
         || after[a] == before[a]
         || exists r :: 0 <= r < |j.rows| && j.rows[r].dst <= a < j.rows[r].dst + j.rows[r].len
  }

  // The chunk counter of the kernel: chunk k of a row is the last exactly when at most a unit is left, and
  // then the tail is what the kernel computes it to be.
  lemma LastChunk(len: nat, unit: nat, k: nat)
    requires unit > 0 && k < CeilDiv(len, unit)
    ensures k == CeilDiv(len, unit) - 1 <==> len <= k * unit + unit
    ensures k == CeilDiv(len, unit) - 1 ==>
              len - k * unit == if len % unit == 0 then unit else len % unit
  {
    CeilDivGalois(len, unit, k);
    CeilDivGalois(len, unit, k + 1);
    Distribute(k, 1, unit);
    if len == k * unit + unit {
      DivModOfSum(k + 1, unit, 0);
    } else if len < k * unit + unit {
      DivModOfSum(k, unit, len - k * unit);
    }
  }
}
