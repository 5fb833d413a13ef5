/** What every run of the cache-assign kernel does to the data: it ends with every row copied, whichever rows are
    empty, while no spill reaches a row that it can harm. */
module AssignCacheProof {
  import opened AssignCache
  import opened AssignCacheRing
  import S = ServiceOrder

  // The part of a row's range that holds its source already.
  ghost predicate Settled(j: Job, r: nat, p: Phase, a: int)
    requires r < |j.rows|
  {
    match p
    case Copying(off) => a < j.rows[r].dst + off
    case Loaded(off, buf) => a < j.rows[r].dst + off
    case Granted(off, buf) => a < j.rows[r].dst + off
    case Written => true
    case Finished => true
  }

  // What row r may write back at a place behind its range: what no row changes, or what a row that was done
  // before has put there.
  ghost predicate Keeps(j: Job, before: seq<int>, r: nat, a: int, v: int)
    requires j.cores > 0 && r < |j.rows|
  {
    && (0 <= a < |before| && j.Free(a) ==> v == before[a])
    && forall q :: 0 <= q < |j.rows| && j.InRange(q, a) && j.Before(q, r) ==> v == j.Want(q, a)
  }

  ghost predicate TailPart(j: Job, before: seq<int>, r: nat, off: nat, buf: seq<int>)
    requires j.cores > 0 && r < |j.rows| && off <= j.rows[r].len
  {
    forall i :: j.rows[r].len - off <= i < |buf| ==> Keeps(j, before, r, j.rows[r].dst + off + i, buf[i])
  }

  ghost predicate BufOk(j: Job, before: seq<int>, r: nat, off: nat, buf: seq<int>)
    requires j.cores > 0 && r < |j.rows|
  {
    off <= j.rows[r].len && OwnPart(j, r, off, buf) && TailPart(j, before, r, off, buf)
  }

  ghost predicate BufferOk(j: Job, before: seq<int>, r: nat, p: Phase)
    requires j.cores > 0 && r < |j.rows|
  {
    match p
    case Loaded(off, buf) => BufOk(j, before, r, off, buf)
    case Granted(off, buf) => BufOk(j, before, r, off, buf)
    case _ => true
  }

  ghost predicate BuffersOk(j: Job, before: seq<int>, s: State)
    requires Fits(j, s)
  {
    forall r :: 0 <= r < |j.rows| ==> BufferOk(j, before, r, s.phases[r])
  }

  ghost predicate DataOk(j: Job, before: seq<int>, s: State)
    requires Fits(j, s)
  {
    && |s.dst| == |before|
    && (forall a :: 0 <= a < |s.dst| && j.Free(a) ==> s.dst[a] == before[a])
    && forall r, a :: 0 <= r < |j.rows| && 0 <= a < |s.dst| && j.InRange(r, a) && Settled(j, r, s.phases[r], a) ==>
         s.dst[a] == j.Want(r, a)
  }

  ghost predicate AllOk(j: Job, before: seq<int>, s: State, tok: Token) {
    Inv(j, s, tok) && BuffersOk(j, before, s) && DataOk(j, before, s)
  }

  lemma OneRange(j: Job, size: nat, r: nat, q: nat, a: int)
    requires j.Valid(size) && r < |j.rows| && q < |j.rows| && j.InRange(q, a)
    ensures j.InRange(r, a) <==> r == q
  {
  }

  // ----- what a row reads -----

  lemma LoadIsOk(j: Job, before: seq<int>, s: State, tok: Token, r: nat, off: nat, buf: seq<int>)
    requires AllOk(j, before, s, tok) && j.SpillsAreSafe() && r < |j.rows| && CanStart(j, s, r)
    requires off <= j.rows[r].len && MayRead(j, s, r, off, buf) && j.rows[r].dst + off + |buf| <= |s.dst|
    ensures BufOk(j, before, r, off, buf)
  {
    forall i | j.rows[r].len - off <= i < |buf|
      ensures Keeps(j, before, r, j.rows[r].dst + off + i, buf[i])
    {
      TailElement(j, before, s, tok, r, off, buf, i, j.rows[r].dst + off + i);
    }
  }

  lemma TailElement(j: Job, before: seq<int>, s: State, tok: Token, r: nat, off: nat, buf: seq<int>, i: nat, a: nat)
    requires AllOk(j, before, s, tok) && j.SpillsAreSafe() && r < |j.rows| && CanStart(j, s, r)
    requires off <= j.rows[r].len && MayRead(j, s, r, off, buf) && j.rows[r].len - off <= i < |buf|
    requires a == j.rows[r].dst + off + i < |s.dst|
    ensures Keeps(j, before, r, a, buf[i])
  {
    ReadValue(j, s, r, off, buf, i, a);
    ReadIsOk(j, before, s, tok, r, a, buf[i]);
  }

  lemma ReadValue(j: Job, s: State, r: nat, off: nat, buf: seq<int>, i: nat, a: nat)
    requires Fits(j, s) && r < |j.rows| && j.blk > 0 && off <= j.rows[r].len && MayRead(j, s, r, off, buf)
    requires j.rows[r].len - off <= i < |buf| && a == j.rows[r].dst + off + i < |s.dst|
    ensures buf[i] == s.dst[a] || Disturbed(j, s, r, a)
  {
  }

  // A value read at place a.
  lemma ReadIsOk(j: Job, before: seq<int>, s: State, tok: Token, r: nat, a: nat, v: int)
    requires AllOk(j, before, s, tok) && j.SpillsAreSafe() && r < |j.rows| && CanStart(j, s, r) && a < |s.dst|
    requires v == s.dst[a] || Disturbed(j, s, r, a)
    ensures Keeps(j, before, r, a, v)
  {
    if j.Free(a) {
      FreeIsUndisturbed(j, before, s, tok, r, a);
    }
    forall q | 0 <= q < |j.rows| && j.InRange(q, a) && j.Before(q, r)
      ensures v == j.Want(q, a)
    {
      BeforeIsDone(j, s, tok, q, r);
      DoneIsUndisturbed(j, before, s, tok, r, q, a);
    }
  }

  // All that is read lies in the destination.
  lemma LoadReaches(j: Job, s: State, tok: Token, r: nat, buf: seq<int>)
    requires Inv(j, s, tok) && Enabled(j, s, Load(r, buf))
    ensures j.rows[r].dst + s.phases[r].off + |buf| <= |s.dst|
  {
    MovedFits(j, s, tok, Load(r, buf));
    Inside(j, r, |s.dst|);
  }

  lemma FreeIsUndisturbed(j: Job, before: seq<int>, s: State, tok: Token, r: nat, a: nat)
    requires AllOk(j, before, s, tok) && a < |s.dst| && j.Free(a)
    ensures !Disturbed(j, s, r, a)
  {
    forall p | 0 <= p < |j.rows| && p != r
      ensures !Changes(j, s, p, a)
    {
      FreeIsUnchanged(j, before, s, tok, p, a);
    }
  }

  lemma FreeIsUnchanged(j: Job, before: seq<int>, s: State, tok: Token, p: nat, a: nat)
    requires AllOk(j, before, s, tok) && a < |s.dst| && j.Free(a) && p < |j.rows|
    ensures !Changes(j, s, p, a)
  {
    assert !j.InRange(p, a);
    if Changes(j, s, p, a) {
      ChangesOutside(j, s, p, a);
      GrantedAt(j, before, s, tok, p, a);
    }
  }

  // A place outside a row's range can only be changed by its spill.
  lemma ChangesOutside(j: Job, s: State, p: nat, a: nat)
    requires Fits(j, s) && j.Valid(|s.dst|) && p < |j.rows| && Changes(j, s, p, a) && !j.InRange(p, a)
    ensures s.phases[p].Granted?
    ensures var start := j.rows[p].dst + s.phases[p].off;
            start <= a < start + |s.phases[p].buf| && s.dst[a] != s.phases[p].buf[a - start]
  {
  }

  // A row that may write holds the right value for every place behind its range.
  lemma GrantedAt(j: Job, before: seq<int>, s: State, tok: Token, p: nat, a: nat)
    requires AllOk(j, before, s, tok) && p < |j.rows| && s.phases[p].Granted? && !j.InRange(p, a)
    requires j.rows[p].dst + s.phases[p].off <= a < j.rows[p].dst + s.phases[p].off + |s.phases[p].buf|
    ensures Keeps(j, before, p, a, s.phases[p].buf[a - (j.rows[p].dst + s.phases[p].off)])
  {
    var i := a - (j.rows[p].dst + s.phases[p].off);
    assert BufferOk(j, before, p, s.phases[p]);
    assert Keeps(j, before, p, j.rows[p].dst + s.phases[p].off + i, s.phases[p].buf[i]);
  }

  lemma DoneIsUndisturbed(j: Job, before: seq<int>, s: State, tok: Token, r: nat, q: nat, a: nat)
    requires AllOk(j, before, s, tok) && j.SpillsAreSafe() && a < |s.dst|
    requires q < |j.rows| && s.phases[q].Finished? && j.InRange(q, a)
    ensures !Disturbed(j, s, r, a) && s.dst[a] == j.Want(q, a)
  {
    assert Settled(j, q, s.phases[q], a);
    forall p | 0 <= p < |j.rows| && p != r
      ensures !Changes(j, s, p, a)
    {
      DoneIsUnchanged(j, before, s, tok, p, q, a);
    }
  }

  lemma DoneIsUnchanged(j: Job, before: seq<int>, s: State, tok: Token, p: nat, q: nat, a: nat)
    requires AllOk(j, before, s, tok) && j.SpillsAreSafe() && a < |s.dst| && p < |j.rows|
    requires q < |j.rows| && s.phases[q].Finished? && j.InRange(q, a) && s.dst[a] == j.Want(q, a)
    ensures !Changes(j, s, p, a)
  {
    OneRange(j, |s.dst|, p, q, a);
    if Changes(j, s, p, a) {
      ChangesOutside(j, s, p, a);
      SpillOnDone(j, before, s, tok, p, q, a);
    }
  }

  // The spill of the row whose turn it is repeats what a finished row has put there.
  lemma SpillOnDone(j: Job, before: seq<int>, s: State, tok: Token, p: nat, q: nat, a: nat)
    requires AllOk(j, before, s, tok) && j.SpillsAreSafe() && p < |j.rows| && s.phases[p].Granted? && !j.InRange(p, a)
    requires j.rows[p].dst + s.phases[p].off <= a < j.rows[p].dst + s.phases[p].off + |s.phases[p].buf|
    requires q < |j.rows| && s.phases[q].Finished? && j.InRange(q, a)
    ensures s.phases[p].buf[a - (j.rows[p].dst + s.phases[p].off)] == j.Want(q, a)
  {
    GrantedAt(j, before, s, tok, p, a);
    LiesBehind(j, s, tok, p, q, a);
    assert TurnOk(j, tok.turn, p, s.phases[p]) && TurnOk(j, tok.turn, q, s.phases[q]);
    if j.Pos(q) == j.Pos(p) {
      SamePos(j, q, p);
    }
    assert !j.Meets(p, q);
  }

  // A place that a row spills over, and that lies in the range of another, lies in the range of a later row.
  lemma LiesBehind(j: Job, s: State, tok: Token, p: nat, q: nat, a: nat)
    requires Inv(j, s, tok) && p < |j.rows| && s.phases[p].Granted? && !j.InRange(p, a)
    requires j.rows[p].dst + s.phases[p].off <= a < j.rows[p].dst + s.phases[p].off + |s.phases[p].buf|
    requires q < |j.rows| && j.InRange(q, a)
    ensures p < q && j.rows[q].dst < j.Reach(p)
  {
    assert PhaseFits(j, p, s.phases[p]);
  }

  lemma StepKeepsBuffers(j: Job, before: seq<int>, s: State, tok: Token, step: Step)
    requires AllOk(j, before, s, tok) && j.SpillsAreSafe() && Enabled(j, s, step)
    ensures BuffersOk(j, before, After(j, s, step))
  {
    OneMoves(j, s, step);
    if step.Load? {
      LoadReaches(j, s, tok, step.r, step.buf);
      LoadIsOk(j, before, s, tok, step.r, s.phases[step.r].off, step.buf);
    }
    MovedBufferOk(j, before, s, step);
    OthersOk(j, before, s, step.r, After(j, s, step).phases);
  }

  lemma OthersOk(j: Job, before: seq<int>, s: State, x: nat, phases: seq<Phase>)
    requires Fits(j, s) && BuffersOk(j, before, s) && x < |j.rows| == |phases| && BufferOk(j, before, x, phases[x])
    requires forall r :: 0 <= r < |phases| && r != x ==> phases[r] == s.phases[r]
    ensures forall r :: 0 <= r < |j.rows| ==> BufferOk(j, before, r, phases[r])
  {
    forall r | 0 <= r < |j.rows|
      ensures BufferOk(j, before, r, phases[r])
    {
      assert BufferOk(j, before, r, s.phases[r]);
    }
  }

  lemma MovedBufferOk(j: Job, before: seq<int>, s: State, step: Step)
    requires Fits(j, s) && j.Valid(|s.dst|) && BuffersOk(j, before, s) && Enabled(j, s, step)
    requires step.Load? ==> BufOk(j, before, step.r, s.phases[step.r].off, step.buf)
    ensures BufferOk(j, before, step.r, After(j, s, step).phases[step.r])
  {
    assert BufferOk(j, before, step.r, s.phases[step.r]);
  }

  // ----- each write keeps the data -----

  lemma EarlyKeepsData(j: Job, before: seq<int>, s: State, r: nat)
    requires Fits(j, s) && j.Valid(|s.dst|) && DataOk(j, before, s) && Enabled(j, s, Early(r))
    ensures DataOk(j, before, After(j, s, Early(r)))
  {
    var row, off, s' := j.rows[r], s.phases[r].off, After(j, s, Early(r));
    Inside(j, r, |s.dst|);
    forall a | 0 <= a < |s.dst| && j.Free(a)
      ensures s'.dst[a] == before[a]
    {
      assert !j.InRange(r, a);
    }
    forall q, a | 0 <= q < |j.rows| && 0 <= a < |s.dst| && j.InRange(q, a) && Settled(j, q, s'.phases[q], a)
      ensures s'.dst[a] == j.Want(q, a)
    {
      EarlyAt(j, before, s, r, q, a);
    }
  }

  lemma EarlyAt(j: Job, before: seq<int>, s: State, r: nat, q: nat, a: nat)
    requires Fits(j, s) && j.Valid(|s.dst|) && DataOk(j, before, s) && Enabled(j, s, Early(r))
    requires q < |j.rows| && a < |s.dst| && j.InRange(q, a) && Settled(j, q, After(j, s, Early(r)).phases[q], a)
    ensures After(j, s, Early(r)).dst[a] == j.Want(q, a)
  {
    var row, off := j.rows[r], s.phases[r].off;
    Inside(j, r, |s.dst|);
    if row.dst + off <= a < row.dst + off + j.unit {
      OneRange(j, |s.dst|, r, q, a);
    } else {
      assert Settled(j, q, s.phases[q], a);
    }
  }

  // The last chunk: inside the range the source; behind it free places, places of rows that are done, and
  // places of rows that have nothing settled there yet.
  lemma PutKeepsData(j: Job, before: seq<int>, s: State, tok: Token, r: nat)
    requires AllOk(j, before, s, tok) && j.SpillsAreSafe() && Enabled(j, s, Put(r))
    ensures DataOk(j, before, After(j, s, Put(r)))
  {
    var s' := After(j, s, Put(r));
    forall a | 0 <= a < |s.dst| && j.Free(a)
      ensures s'.dst[a] == before[a]
    {
      PutAtFree(j, before, s, tok, r, a);
    }
    forall q, a | 0 <= q < |j.rows| && 0 <= a < |s.dst| && j.InRange(q, a) && Settled(j, q, s'.phases[q], a)
      ensures s'.dst[a] == j.Want(q, a)
    {
      if q == r {
        PutAtOwn(j, before, s, tok, r, a);
      } else {
        PutAtOther(j, before, s, tok, r, q, a);
      }
    }
  }

  lemma PutGives(j: Job, s: State, r: nat, a: nat)
    requires Fits(j, s) && j.Valid(|s.dst|) && Enabled(j, s, Put(r)) && a < |s.dst|
    ensures After(j, s, Put(r)).dst[a] ==
            var at := j.rows[r].dst + s.phases[r].off;
            if at <= a < at + |s.phases[r].buf| then s.phases[r].buf[a - at] else s.dst[a]
  {
  }

  lemma PutAtFree(j: Job, before: seq<int>, s: State, tok: Token, r: nat, a: nat)
    requires AllOk(j, before, s, tok) && Enabled(j, s, Put(r)) && a < |s.dst| && j.Free(a)
    ensures After(j, s, Put(r)).dst[a] == before[a]
  {
    var start := j.rows[r].dst + s.phases[r].off;
    PutGives(j, s, r, a);
    assert !j.InRange(r, a);
    if start <= a < start + |s.phases[r].buf| {
      GrantedAt(j, before, s, tok, r, a);
    }
  }

  lemma PutAtOwn(j: Job, before: seq<int>, s: State, tok: Token, r: nat, a: nat)
    requires AllOk(j, before, s, tok) && Enabled(j, s, Put(r)) && a < |s.dst| && j.InRange(r, a)
    ensures After(j, s, Put(r)).dst[a] == j.Want(r, a)
  {
    var start := j.rows[r].dst + s.phases[r].off;
    PutGives(j, s, r, a);
    assert a < start ==> Settled(j, r, s.phases[r], a);
    if a >= start {
      OwnAt(j, before, s, tok, r, a);
    }
  }

  lemma OwnAt(j: Job, before: seq<int>, s: State, tok: Token, r: nat, a: nat)
    requires AllOk(j, before, s, tok) && r < |j.rows| && s.phases[r].Granted?
    requires j.rows[r].dst + s.phases[r].off <= a && j.InRange(r, a)
    ensures var start := j.rows[r].dst + s.phases[r].off;
            a - start < |s.phases[r].buf| && s.phases[r].buf[a - start] == j.Want(r, a)
  {
    var off, i := s.phases[r].off, a - (j.rows[r].dst + s.phases[r].off);
    assert BufferOk(j, before, r, s.phases[r]) && PhaseFits(j, r, s.phases[r]);
    Inside(j, r, |s.dst|);
    OwnElement(j, r, off, s.phases[r].buf, i, a);
  }

  lemma OwnElement(j: Job, r: nat, off: nat, buf: seq<int>, i: nat, a: nat)
    requires r < |j.rows| && OwnPart(j, r, off, buf) && i < |buf| && off + i < j.rows[r].len
    requires j.rows[r].src + j.rows[r].len <= |j.src| && a == j.rows[r].dst + off + i
    ensures buf[i] == j.Want(r, a)
  {
  }

  lemma PutAtOther(j: Job, before: seq<int>, s: State, tok: Token, r: nat, q: nat, a: nat)
    requires AllOk(j, before, s, tok) && j.SpillsAreSafe() && Enabled(j, s, Put(r))
    requires q < |j.rows| && q != r && a < |s.dst| && j.InRange(q, a) && Settled(j, q, s.phases[q], a)
    ensures After(j, s, Put(r)).dst[a] == j.Want(q, a)
  {
    var start := j.rows[r].dst + s.phases[r].off;
    PutGives(j, s, r, a);
    if start <= a < start + |s.phases[r].buf| {
      OneRange(j, |s.dst|, r, q, a);
      LiesBehind(j, s, tok, r, q, a);
      SettledIsDone(j, s, tok, r, q, a);
      SpillOnDone(j, before, s, tok, r, q, a);
    }
  }

  // What the row whose turn it is may spill over and holds its source already belongs to a finished row.
  lemma SettledIsDone(j: Job, s: State, tok: Token, r: nat, q: nat, a: nat)
    requires Inv(j, s, tok) && j.SpillsAreSafe() && r < q < |j.rows| && s.phases[r].Granted? && j.rows[q].dst < j.Reach(r)
    requires j.InRange(q, a) && Settled(j, q, s.phases[q], a)
    ensures s.phases[q].Finished?
  {
    assert TurnOk(j, tok.turn, r, s.phases[r]) && TurnOk(j, tok.turn, q, s.phases[q]) && PhaseFits(j, q, s.phases[q]);
    assert !j.Meets(r, q);
    if j.Pos(q) == j.Pos(r) {
      SamePos(j, q, r);
    } else if j.Before(r, q) && CanStart(j, s, q) {
      BeforeIsDone(j, s, tok, r, q);
    }
  }

  lemma QuietKeepsData(j: Job, before: seq<int>, s: State, step: Step)
    requires Fits(j, s) && j.Valid(|s.dst|) && DataOk(j, before, s) && Enabled(j, s, step) && !step.Early? && !step.Put?
    ensures DataOk(j, before, After(j, s, step))
  {
    var s' := After(j, s, step);
    forall q, a | 0 <= q < |j.rows| && 0 <= a < |s.dst| && j.InRange(q, a) && Settled(j, q, s'.phases[q], a)
      ensures s'.dst[a] == j.Want(q, a)
    {
      assert Settled(j, q, s.phases[q], a);
    }
  }

  lemma StepKeepsData(j: Job, before: seq<int>, s: State, tok: Token, step: Step)
    requires AllOk(j, before, s, tok) && j.SpillsAreSafe() && Enabled(j, s, step)
    ensures DataOk(j, before, After(j, s, step))
  {
    if step.Early? {
      EarlyKeepsData(j, before, s, step.r);
    } else if step.Put? {
      PutKeepsData(j, before, s, tok, step.r);
    } else {
      QuietKeepsData(j, before, s, step);
    }
  }

  // ----- all runs -----

  lemma NextKeepsOk(j: Job, before: seq<int>, t: seq<State>, i: nat, tok: Token) returns (tok': Token)
    requires Chained(j, t) && 0 < i < |t| && AllOk(j, before, t[i - 1], tok) && j.SpillsAreSafe()
    ensures AllOk(j, before, t[i], tok')
  {
    NextInChain(j, t, i);
    var s := t[i - 1];
    var step :| Enabled(j, s, step) && t[i] == After(j, s, step);
    StepKeepsInv(j, s, tok, step);
    StepKeepsBuffers(j, before, s, tok, step);
    StepKeepsData(j, before, s, tok, step);
    tok' := NextToken(tok, step);
  }

  lemma {:induction false} RunKeepsOk(j: Job, t: seq<State>, i: nat) returns (tok: Token)
    requires Run(j, t) && j.SpillsAreSafe() && i < |t|
    ensures AllOk(j, t[0].dst, t[i], tok)
  {
    if i == 0 {
      StartsOk(j, t[0]);
      tok := Token(0, 0);
    } else {
      tok := RunKeepsOk(j, t, i - 1);
      tok := NextKeepsOk(j, t[0].dst, t, i, tok);
    }
  }

  // However the cores interleave and whichever rows are empty, a finished run has copied every row and changed
  // nothing else: place a of the destination holds element rows[r].src + (a - rows[r].dst) of the source if it lies
  // in row r's range, and what it held before if it lies in none.
  lemma FinishedIsCopied(j: Job, t: seq<State>, i: nat)
    requires Run(j, t) && j.SpillsAreSafe() && i < |t| && AllFinished(t[i])
    ensures |t[i].dst| == |t[0].dst|
    ensures forall r, a :: 0 <= r < |j.rows| && j.rows[r].dst <= a < j.rows[r].dst + j.rows[r].len ==>
              && a < |t[i].dst| && j.rows[r].src + (a - j.rows[r].dst) < |j.src|
              && t[i].dst[a] == j.src[j.rows[r].src + (a - j.rows[r].dst)]
    ensures forall a :: 0 <= a < |t[i].dst| ==>
              || t[i].dst[a] == t[0].dst[a]
              || exists r :: 0 <= r < |j.rows| && j.rows[r].dst <= a < j.rows[r].dst + j.rows[r].len
  {
    var tok := RunKeepsOk(j, t, i);
    forall r, a | 0 <= r < |j.rows| && j.rows[r].dst <= a < j.rows[r].dst + j.rows[r].len
      ensures a < |t[i].dst| && j.rows[r].src + (a - j.rows[r].dst) < |j.src|
      ensures t[i].dst[a] == j.src[j.rows[r].src + (a - j.rows[r].dst)]
    {
      CopiedAt(j, t[0].dst, t[i], r, a);
    }
    forall a | 0 <= a < |t[i].dst|
      ensures || t[i].dst[a] == t[0].dst[a]
              || exists r :: 0 <= r < |j.rows| && j.rows[r].dst <= a < j.rows[r].dst + j.rows[r].len
    {
      KeptAt(j, t[0].dst, t[i], a);
    }
  }

  lemma CopiedAt(j: Job, before: seq<int>, s: State, r: nat, a: nat)
    requires Fits(j, s) && j.Valid(|s.dst|) && DataOk(j, before, s) && AllFinished(s)
    requires r < |j.rows| && j.rows[r].dst <= a < j.rows[r].dst + j.rows[r].len
    ensures a < |s.dst| && j.rows[r].src + (a - j.rows[r].dst) < |j.src|
    ensures s.dst[a] == j.src[j.rows[r].src + (a - j.rows[r].dst)]
  {
    Inside(j, r, |s.dst|);
    assert j.InRange(r, a) && Settled(j, r, s.phases[r], a);
  }

  lemma KeptAt(j: Job, before: seq<int>, s: State, a: nat)
    requires Fits(j, s) && DataOk(j, before, s) && a < |s.dst|
    ensures || s.dst[a] == before[a]
            || exists r :: 0 <= r < |j.rows| && j.rows[r].dst <= a < j.rows[r].dst + j.rows[r].len
  {
    if !j.Free(a) {
      var r :| 0 <= r < |j.rows| && j.InRange(r, a);
    }
  }

  // ----- rows that are served as they come -----

  // Only the last row may be empty.
  ghost predicate RowsNonempty(j: Job) {
    forall r :: 0 <= r < |j.rows| - 1 ==> j.rows[r].len > 0
  }

  lemma ServedInOrder(j: Job, r: nat)
    requires j.cores > 0 && RowsNonempty(j) && r < |j.rows|
    ensures j.Pos(r) == r
  {
    S.PosOfAll(j.cores, j.Busy(), r);
  }
}
