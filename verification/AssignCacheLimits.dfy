/** Exactly when the cache-assign kernel keeps its promise: a run that goes wrong for every spill that reaches a row
    it can harm, and what empty rows do to the ring. */
module AssignCacheLimits {
  import opened AssignCache
  import opened AssignCacheRing
  import opened AssignCacheProgress
  import opened AssignCacheProof
  import S = ServiceOrder

  // The spill of row r reaches row q and can harm it.
  ghost predicate SpillHits(j: Job, r: nat, q: nat)
    requires j.cores > 0 && j.blk > 0 && j.unit > 0
  {
    r < q < |j.rows| && j.Meets(r, q) && j.Reach(r) > j.rows[q].dst
  }

  // ----- a value that stays -----

  // If the buffer reaches place a, it holds w there.
  ghost predicate Holds(j: Job, r: nat, off: nat, buf: seq<int>, a: int, w: int)
    requires r < |j.rows|
  {
    forall i :: 0 <= i < |buf| && j.rows[r].dst + off + i == a ==> buf[i] == w
  }

  ghost predicate HoldsIn(j: Job, r: nat, p: Phase, a: int, w: int)
    requires r < |j.rows|
  {
    match p
    case Loaded(off, buf) => Holds(j, r, off, buf, a, w)
    case Granted(off, buf) => Holds(j, r, off, buf, a, w)
    case _ => true
  }

  // The first chunk of a row is copied, so that it will not write its first place again.
  predicate Begun(p: Phase) {
    match p
    case Copying(off) => off > 0
    case Loaded(off, buf) => off > 0
    case Granted(off, buf) => off > 0
    case Written => true
    case Finished => true
  }

  // The first place of row q holds w, and no other row is about to put anything else there.
  ghost predicate Stale(j: Job, s: State, tok: Token, q: nat, w: int) {
    && Inv(j, s, tok) && q < |j.rows| && j.rows[q].len > 0 && j.rows[q].dst < |s.dst| && s.dst[j.rows[q].dst] == w
    && OthersHold(j, s.phases, q, j.rows[q].dst, w)
  }

  ghost predicate OthersHold(j: Job, phases: seq<Phase>, q: nat, a: int, w: int) {
    |phases| == |j.rows| && forall p :: 0 <= p < |j.rows| && p != q ==> HoldsIn(j, p, phases[p], a, w)
  }

  lemma OthersStay(j: Job, phases: seq<Phase>, phases': seq<Phase>, x: nat, q: nat, a: int, w: int)
    requires OthersHold(j, phases, q, a, w) && x < |phases'| == |phases| && (x != q ==> HoldsIn(j, x, phases'[x], a, w))
    requires forall p :: 0 <= p < |phases| && p != x ==> phases'[p] == phases[p]
    ensures OthersHold(j, phases', q, a, w)
  {
    forall p | 0 <= p < |j.rows| && p != q
      ensures HoldsIn(j, p, phases'[p], a, w)
    {
      assert HoldsIn(j, p, phases[p], a, w);
    }
  }

  lemma ReadHolds(j: Job, s: State, r: nat, off: nat, a: nat, w: int)
    requires Fits(j, s) && j.blk > 0 && r < |j.rows| && off <= j.rows[r].len
    requires !j.InRange(r, a) && a < |s.dst| && s.dst[a] == w
    ensures Holds(j, r, off, ReadNow(j, s, r, off), a, w)
  {
  }

  // It stays so whatever the other rows do, and whatever row q does once it has begun.
  lemma StaleStays(j: Job, s: State, tok: Token, q: nat, w: int, step: Step)
    requires Stale(j, s, tok, q, w) && Enabled(j, s, step) && Undisturbed(j, s, step)
    requires step.r == q ==> Begun(s.phases[q])
    ensures Stale(j, After(j, s, step), NextToken(tok, step), q, w)
    ensures Begun(s.phases[q]) ==> Begun(After(j, s, step).phases[q])
  {
    StepKeepsInv(j, s, tok, step);
    OneMoves(j, s, step);
    StaleMoved(j, s, tok, q, w, step);
    OthersStay(j, s.phases, After(j, s, step).phases, step.r, q, j.rows[q].dst, w);
    StaleDst(j, s, tok, q, w, step);
    BegunStays(j, s, q, step);
  }

  lemma BegunStays(j: Job, s: State, q: nat, step: Step)
    requires Fits(j, s) && j.Valid(|s.dst|) && Enabled(j, s, step) && q < |j.rows|
    ensures |After(j, s, step).phases| == |j.rows| && (Begun(s.phases[q]) ==> Begun(After(j, s, step).phases[q]))
  {
    OneMoves(j, s, step);
  }

  lemma StaleMoved(j: Job, s: State, tok: Token, q: nat, w: int, step: Step)
    requires Stale(j, s, tok, q, w) && Enabled(j, s, step) && Undisturbed(j, s, step)
    ensures step.r != q ==> HoldsIn(j, step.r, After(j, s, step).phases[step.r], j.rows[q].dst, w)
  {
    var r, a := step.r, j.rows[q].dst;
    OneRange(j, |s.dst|, r, q, a);
    assert r != q ==> HoldsIn(j, r, s.phases[r], a, w);
    if r != q && step.Load? {
      ReadHolds(j, s, r, s.phases[r].off, a, w);
    }
  }

  lemma StaleDst(j: Job, s: State, tok: Token, q: nat, w: int, step: Step)
    requires Stale(j, s, tok, q, w) && Enabled(j, s, step) && (step.r == q ==> Begun(s.phases[q]))
    ensures |After(j, s, step).dst| == |s.dst| && After(j, s, step).dst[j.rows[q].dst] == w
  {
    var r := step.r;
    assert r != q ==> HoldsIn(j, r, s.phases[r], j.rows[q].dst, w);
    if step.Early? {
      EarlyMisses(j, s, r, q);
    } else if step.Put? {
      PutRepeats(j, s, r, q, w);
    }
  }

  lemma EarlyMisses(j: Job, s: State, r: nat, q: nat)
    requires Fits(j, s) && j.Valid(|s.dst|) && Enabled(j, s, Early(r)) && q < |j.rows| && j.rows[q].len > 0
    requires (r == q ==> s.phases[q].off > 0) && j.rows[q].dst < |s.dst|
    ensures |After(j, s, Early(r)).dst| == |s.dst| && After(j, s, Early(r)).dst[j.rows[q].dst] == s.dst[j.rows[q].dst]
  {
    Inside(j, r, |s.dst|);
    OneRange(j, |s.dst|, r, q, j.rows[q].dst);
  }

  lemma PutRepeats(j: Job, s: State, r: nat, q: nat, w: int)
    requires Fits(j, s) && j.Valid(|s.dst|) && Enabled(j, s, Put(r)) && q < |j.rows|
    requires j.rows[q].dst < |s.dst| && s.dst[j.rows[q].dst] == w
    requires if r == q then s.phases[q].off > 0 else HoldsIn(j, r, s.phases[r], j.rows[q].dst, w)
    ensures |After(j, s, Put(r)).dst| == |s.dst| && After(j, s, Put(r)).dst[j.rows[q].dst] == w
  {
    PutGives(j, s, r, j.rows[q].dst);
  }

  lemma {:induction false} StaleToTheEnd(j: Job, s: State, tok: Token, q: nat, w: int) returns (e: State)
    requires Stale(j, s, tok, q, w) && Begun(s.phases[q]) && j.RingCloses()
    ensures Leads(j, s, e) && AllFinished(e) && j.rows[q].dst < |e.dst| && e.dst[j.rows[q].dst] == w
    decreases MovesLeft(j.rows, s.phases)
  {
    if AllFinished(s) {
      StaysPut(j, s);
      e := s;
    } else {
      var step := HasNext(j, s, tok);
      StaleStays(j, s, tok, q, w, step);
      StepUsesMoves(j, s, step);
      e := StaleToTheEnd(j, After(j, s, step), NextToken(tok, step), q, w);
      StepsOn(j, s, step, e);
    }
  }

  // ----- the schedule that goes wrong -----

  // No row with a later turn than r's holds anything yet, but for row q.
  ghost predicate Quiet(j: Job, s: State, r: nat, q: nat)
    requires Fits(j, s) && r < |j.rows|
  {
    forall p :: 0 <= p < |j.rows| && p != q && j.rows[p].len > 0 && j.Pos(r) < j.Pos(p) ==> s.phases[p].Copying?
  }

  lemma QuietStays(j: Job, s: State, r: nat, q: nat, step: Step)
    requires Fits(j, s) && j.Valid(|s.dst|) && r < |j.rows| && Quiet(j, s, r, q) && Enabled(j, s, step)
    requires step.r == q || step.Skip? || j.Pos(step.r) <= j.Pos(r)
    ensures Quiet(j, After(j, s, step), r, q)
  {
    OneMoves(j, s, step);
  }

  // Row q has not begun, and its first place holds w; row r can still come to hold it.
  ghost predicate Ahead(j: Job, s: State, tok: Token, r: nat, q: nat, w: int) {
    && Stale(j, s, tok, q, w) && s.phases[q] == Copying(0)
    && r < |j.rows| && r != q && j.rows[r].len > 0 && Quiet(j, s, r, q)
  }

  lemma WaitingOn(j: Job, s: State, tok: Token, r: nat, q: nat, w: int, step: Step)
    requires Ahead(j, s, tok, r, q, w) && Enabled(j, s, step) && Undisturbed(j, s, step) && step.r != q
    requires step.Skip? || j.Pos(step.r) <= j.Pos(r)
    ensures Ahead(j, After(j, s, step), NextToken(tok, step), r, q, w)
  {
    StaleStays(j, s, tok, q, w, step);
    QuietStays(j, s, r, q, step);
    OneMoves(j, s, step);
  }

  // First the rows before both of them are served.
  lemma {:induction false} ServeUpTo(j: Job, s: State, tok: Token, r: nat, q: nat, w: int, m: nat)
    returns (e: State, tok': Token)
    requires Ahead(j, s, tok, r, q, w) && j.RingCloses() && tok.turn <= m <= j.Pos(r) && m <= j.Pos(q)
    ensures Leads(j, s, e) && Ahead(j, e, tok', r, q, w) && Idle(j, e, tok') && tok'.turn == m
    decreases MovesLeft(j.rows, s.phases)
  {
    if tok.turn == m && Idle(j, s, tok) {
      StaysPut(j, s);
      e, tok' := s, tok;
    } else {
      var step := HasNext(j, s, tok);
      WaitingOn(j, s, tok, r, q, w, step);
      StepUsesMoves(j, s, step);
      e, tok' := ServeUpTo(j, After(j, s, step), NextToken(tok, step), r, q, w, m);
      StepsOn(j, s, step, e);
    }
  }

  lemma StaysIdle(j: Job, s: State, tok: Token, step: Step)
    requires Inv(j, s, tok) && Idle(j, s, tok) && Enabled(j, s, step) && !step.Wait?
    ensures Inv(j, After(j, s, step), tok) && Idle(j, After(j, s, step), tok)
  {
    StepKeepsInv(j, s, tok, step);
    OneMoves(j, s, step);
  }

  // Then row r reads its last chunk, and with it w.
  lemma {:induction false} ReadStale(j: Job, s: State, tok: Token, r: nat, q: nat, w: int) returns (e: State)
    requires Ahead(j, s, tok, r, q, w) && Idle(j, s, tok) && tok.turn <= j.Pos(r) < tok.turn + j.cores
    ensures Leads(j, s, e) && Ahead(j, e, tok, r, q, w) && Idle(j, e, tok) && e.phases[r].Loaded?
    decreases MovesLeft(j.rows, s.phases)
  {
    assert TurnOk(j, tok.turn, r, s.phases[r]);
    if s.phases[r].Loaded? {
      StaysPut(j, s);
      e := s;
    } else {
      var step := CoreStep(j, s, tok, r);
      WaitingOn(j, s, tok, r, q, w, step);
      StaysIdle(j, s, tok, step);
      StepUsesMoves(j, s, step);
      e := ReadStale(j, After(j, s, step), tok, r, q, w);
      StepsOn(j, s, step, e);
    }
  }

  // Row r holds w; row q has begun or will have been served before.
  ghost predicate Racing(j: Job, s: State, tok: Token, r: nat, q: nat, w: int) {
    && Inv(j, s, tok) && r < q < |j.rows| && j.rows[r].len > 0 && j.rows[q].len > 0 && Quiet(j, s, r, q)
    && (s.phases[r].Loaded? || s.phases[r].Granted?) && HoldsIn(j, r, s.phases[r], j.rows[q].dst, w)
    && (j.Pos(q) < j.Pos(r) || (j.Pos(r) < j.Pos(q) && Begun(s.phases[q])))
  }

  // If row q comes later, it copies its first chunk now.
  lemma {:induction false} BeginRow(j: Job, s: State, tok: Token, r: nat, q: nat, w: int) returns (e: State)
    requires Ahead(j, s, tok, r, q, w) && Idle(j, s, tok) && s.phases[r].Loaded? && r < q
    requires j.rows[q].len > j.unit && j.Pos(r) < j.Pos(q) < tok.turn + j.cores
    ensures Leads(j, s, e) && Racing(j, e, tok, r, q, w)
    decreases MovesLeft(j.rows, s.phases)
  {
    var step := CoreStep(j, s, tok, q);
    StaysIdle(j, s, tok, step);
    if step.r == q {
      OneMoves(j, s, step);
      QuietStays(j, s, r, q, step);
      assert HoldsIn(j, r, s.phases[r], j.rows[q].dst, w);
      StaysPut(j, After(j, s, step));
      e := After(j, s, step);
    } else {
      WaitingOn(j, s, tok, r, q, w, step);
      StepUsesMoves(j, s, step);
      OneMoves(j, s, step);
      e := BeginRow(j, After(j, s, step), tok, r, q, w);
    }
    StepsOn(j, s, step, e);
  }

  // At last row r gets its turn and writes w over the first place of row q.
  lemma {:induction false} RaceOn(j: Job, s: State, tok: Token, r: nat, q: nat, w: int) returns (e: State, tok': Token)
    requires Racing(j, s, tok, r, q, w) && j.RingCloses() && SpillHits(j, r, q)
    ensures Leads(j, s, e) && Stale(j, e, tok', q, w) && Begun(e.phases[q])
    decreases MovesLeft(j.rows, s.phases)
  {
    if s.phases[r].Granted? {
      e := SpillOver(j, s, tok, r, q, w);
      tok' := tok;
    } else {
      var step := RaceStep(j, s, tok, r, q, w);
      StepUsesMoves(j, s, step);
      e, tok' := RaceOn(j, After(j, s, step), NextToken(tok, step), r, q, w);
      StepsOn(j, s, step, e);
    }
  }

  lemma RaceStep(j: Job, s: State, tok: Token, r: nat, q: nat, w: int) returns (step: Step)
    requires Racing(j, s, tok, r, q, w) && j.RingCloses() && s.phases[r].Loaded?
    ensures Enabled(j, s, step) && Undisturbed(j, s, step) && Racing(j, After(j, s, step), NextToken(tok, step), r, q, w)
  {
    assert TurnOk(j, tok.turn, r, s.phases[r]);
    step := HasNext(j, s, tok);
    RacingStays(j, s, tok, r, q, w, step);
  }

  lemma RacingStays(j: Job, s: State, tok: Token, r: nat, q: nat, w: int, step: Step)
    requires Racing(j, s, tok, r, q, w) && Enabled(j, s, step) && s.phases[r].Loaded?
    requires step.Skip? || j.Pos(step.r) <= j.Pos(r)
    ensures Racing(j, After(j, s, step), NextToken(tok, step), r, q, w)
  {
    StepKeepsInv(j, s, tok, step);
    OneMoves(j, s, step);
    QuietStays(j, s, r, q, step);
    BegunStays(j, s, q, step);
    HolderStays(j, s, r, j.rows[q].dst, w, step);
  }

  lemma HolderStays(j: Job, s: State, r: nat, a: int, w: int, step: Step)
    requires Fits(j, s) && j.Valid(|s.dst|) && r < |j.rows| && s.phases[r].Loaded? && HoldsIn(j, r, s.phases[r], a, w)
    requires Enabled(j, s, step)
    ensures |After(j, s, step).phases| == |j.rows|
    ensures After(j, s, step).phases[r].Loaded? || After(j, s, step).phases[r].Granted?
    ensures HoldsIn(j, r, After(j, s, step).phases[r], a, w)
  {
    OneMoves(j, s, step);
  }

  lemma SpillOver(j: Job, s: State, tok: Token, r: nat, q: nat, w: int) returns (e: State)
    requires Racing(j, s, tok, r, q, w) && SpillHits(j, r, q) && s.phases[r].Granted?
    ensures Leads(j, s, e) && Stale(j, e, tok, q, w) && Begun(e.phases[q])
  {
    assert PhaseFits(j, r, s.phases[r]);
    Inside(j, r, |s.dst|);
    Inside(j, q, |s.dst|);
    e := After(j, s, Put(r));
    StepKeepsInv(j, s, tok, Put(r));
    SpilledValue(j, s, tok, r, q, w);
    HeldAfter(j, s, tok, r, q, w);
    BegunAfter(j, s, tok, r, q, w);
    StaysPut(j, e);
    StepsOn(j, s, Put(r), e);
  }

  lemma HeldAfter(j: Job, s: State, tok: Token, r: nat, q: nat, w: int)
    requires Racing(j, s, tok, r, q, w) && s.phases[r].Granted? && Enabled(j, s, Put(r))
    ensures OthersHold(j, After(j, s, Put(r)).phases, q, j.rows[q].dst, w)
  {
    OneMoves(j, s, Put(r));
    forall p | 0 <= p < |j.rows| && p != q && p != r
      ensures s.phases[p].Copying? || s.phases[p].Finished?
    {
      NothingHeld(j, s, tok, r, q, p);
    }
  }

  lemma BegunAfter(j: Job, s: State, tok: Token, r: nat, q: nat, w: int)
    requires Racing(j, s, tok, r, q, w) && s.phases[r].Granted? && Enabled(j, s, Put(r))
    ensures |After(j, s, Put(r)).phases| == |j.rows| && Begun(After(j, s, Put(r)).phases[q])
  {
    OneMoves(j, s, Put(r));
    assert TurnOk(j, tok.turn, r, s.phases[r]) && TurnOk(j, tok.turn, q, s.phases[q]);
  }

  lemma NothingHeld(j: Job, s: State, tok: Token, r: nat, q: nat, p: nat)
    requires Inv(j, s, tok) && r < |j.rows| && j.rows[r].len > 0 && Quiet(j, s, r, q) && s.phases[r].Granted?
    requires p < |j.rows| && p != q && p != r
    ensures s.phases[p].Copying? || s.phases[p].Finished?
  {
    assert TurnOk(j, tok.turn, r, s.phases[r]) && TurnOk(j, tok.turn, p, s.phases[p]);
    if j.rows[p].len > 0 && j.Pos(p) == j.Pos(r) {
      SamePos(j, p, r);
    }
  }

  lemma SpilledValue(j: Job, s: State, tok: Token, r: nat, q: nat, w: int)
    requires Racing(j, s, tok, r, q, w) && SpillHits(j, r, q) && s.phases[r].Granted? && Enabled(j, s, Put(r))
    requires j.rows[q].dst < |s.dst|
    ensures After(j, s, Put(r)).dst[j.rows[q].dst] == w
  {
    var start, a := j.rows[r].dst + s.phases[r].off, j.rows[q].dst;
    assert PhaseFits(j, r, s.phases[r]);
    assert j.rows[r].dst + j.rows[r].len <= a;
    PutGives(j, s, r, a);
    assert s.phases[r].buf[a - start] == w;
  }

  // From a destination whose first place for row q differs from the source: a run in which every core reads what
  // stands there, and which ends with the old value at that place.
  lemma WrongRun(j: Job, s: State, r: nat, q: nat) returns (t: seq<State>)
    requires Init(j, s) && j.RingCloses() && SpillHits(j, r, q)
    requires j.rows[q].dst < |s.dst| && s.dst[j.rows[q].dst] != j.src[j.rows[q].src]
    ensures Run(j, t) && Calm(j, t) && t[0] == s && AllFinished(t[|t| - 1]) && !Copied(j, s.dst, t[|t| - 1].dst)
  {
    var a := j.rows[q].dst;
    var w := s.dst[a];
    var m := if j.Pos(r) < j.Pos(q) then j.Pos(r) else j.Pos(q);
    StartsOk(j, s);
    var s1, tok := ServeUpTo(j, s, Token(0, 0), r, q, w, m);
    var s2 := ReadStale(j, s1, tok, r, q, w);
    LeadsOn(j, s, s1, s2);
    var s3 := s2;
    if j.Pos(r) < j.Pos(q) {
      s3 := BeginRow(j, s2, tok, r, q, w);
      LeadsOn(j, s, s2, s3);
    } else {
      assert HoldsIn(j, r, s2.phases[r], a, w);
    }
    var s4, tok4 := RaceOn(j, s3, tok, r, q, w);
    LeadsOn(j, s, s3, s4);
    var e := StaleToTheEnd(j, s4, tok4, q, w);
    LeadsOn(j, s, s4, e);
    t :| Calm(j, t) && t != [] && t[0] == s && t[|t| - 1] == e;
    CalmIsChained(j, t);
    NotCopied(j, s.dst, e.dst, q);
  }

  lemma NotCopied(j: Job, before: seq<int>, after: seq<int>, q: nat)
    requires j.Valid(|before|) && q < |j.rows| && j.rows[q].len > 0
    requires j.rows[q].dst < |after| && after[j.rows[q].dst] != j.src[j.rows[q].src]
    ensures !Copied(j, before, after)
  {
    var a := j.rows[q].dst;
    assert j.rows[q].src + (a - j.rows[q].dst) == j.rows[q].src;
  }

  // A destination that differs from the source at the first place of row q.
  ghost function Stained(j: Job, size: nat, q: nat): (s: State)
    requires j.Valid(size) && q < |j.rows|
    ensures Init(j, s) && |s.dst| == size
  {
    State(seq(size, i => j.Want(q, j.rows[q].dst) + 1), seq(|j.rows|, i => Copying(0)), seq(j.cores, i => 0))
  }

  // Of all launches that can finish, the kernel is right on every destination and in every run exactly when no
  // spill reaches a row that it can harm.
  lemma RightExactlyWhenSpillsAreSafe(j: Job, size: nat)
    requires j.Valid(size) && j.RingCloses()
    ensures j.SpillsAreSafe()
       <==> forall t: seq<State> :: Run(j, t) && |t[0].dst| == size && AllFinished(t[|t| - 1]) ==>
              Copied(j, t[0].dst, t[|t| - 1].dst)
  {
    if j.SpillsAreSafe() {
      forall t: seq<State> | Run(j, t) && AllFinished(t[|t| - 1])
        ensures Copied(j, t[0].dst, t[|t| - 1].dst)
      {
        FinishedIsCopied(j, t, |t| - 1);
      }
    } else {
      var r, q :| 0 <= r < q < |j.rows| && j.Meets(r, q) && j.Reach(r) > j.rows[q].dst;
      Inside(j, q, size);
      var t := WrongRun(j, Stained(j, size, q), r, q);
    }
  }

  // A launch that goes wrong on any number of cores but one: 16-bit elements, chunks of 48 KB, a destination of two
  // rows of 24592 places. The first row fills the last place of its destination row; the second starts behind it and
  // is one element longer than a chunk.
  lemma SpillGoesWrong(cores: nat) returns (j: Job, s: State, t: seq<State>)
    requires cores >= 2
    ensures j == Job(cores, 16, 24576, [Row(24591, 0, 1), Row(24592, 1, 24577)], seq(24578, i => 1))
    ensures s.dst == seq(2 * 24592, i => 0)
    ensures Run(j, t) && Calm(j, t) && t[0] == s && AllFinished(t[|t| - 1]) && !Copied(j, s.dst, t[|t| - 1].dst)
  {
    j := Job(cores, 16, 24576, [Row(24591, 0, 1), Row(24592, 1, 24577)], seq(24578, i => 1));
    s := State(seq(2 * 24592, i => 0), seq(2, i => Copying(0)), seq(cores, i => 0));
    NoneEmptyCloses(j);
    ServedInOrder(j, 0);
    ServedInOrder(j, 1);
    assert j.Reach(0) == 24607 && j.Reach(1) == 2 * 24592;
    t := WrongRun(j, s, 0, 1);
  }

  // ----- empty rows -----

  // While only the last row may be empty, the ring closes and rows are served in row order, ...
  lemma NoneEmptyCloses(j: Job)
    requires j.cores > 0 && RowsNonempty(j)
    ensures j.RingCloses()
  {
    var n := |j.rows|;
    if n > 0 {
      var e := if j.rows[n - 1].len > 0 then n else n - 1;
      S.TotalOfAll(j.Busy(), e);
      forall k | 0 <= k < j.cores
        ensures S.Turns(j.cores, k, j.Busy(), n) == S.Share(j.cores, k, e)
      {
        S.SlotOfAll(j.cores, k, j.Busy(), e);
        S.ShareIsSlot(j.cores, k, j.Busy(), n, e);
      }
    }
  }

  // ... and a spill can harm the rows of several chunks less than a round behind.
  lemma SafeInRowOrder(j: Job)
    requires j.cores > 0 && j.blk > 0 && j.unit > 0 && RowsNonempty(j)
    ensures j.SpillsAreSafe()
       <==> forall r, q :: 0 <= r < q < |j.rows| && q < r + j.cores && j.rows[q].len > j.unit ==>
              j.Reach(r) <= j.rows[q].dst
  {
    forall r | 0 <= r < |j.rows|
      ensures j.Pos(r) == r
    {
      ServedInOrder(j, r);
    }
  }

  lemma {:induction false} OneMissing(busy: seq<bool>, e: nat, n: nat)
    requires n <= |busy| && forall i :: 0 <= i < |busy| ==> (busy[i] <==> i != e)
    ensures S.Total(busy, n) == if e < n then n - 1 else n
  {
    if n > 0 {
      OneMissing(busy, e, n - 1);
    }
  }

  lemma EmptyRowOpens(j: Job, e: nat)
    requires j.cores >= 2 && e < |j.rows| - 1
    requires forall r :: 0 <= r < |j.rows| ==> (j.rows[r].len == 0 <==> r == e)
    ensures !j.RingCloses()
  {
    OneMissing(j.Busy(), e, |j.rows|);
    S.StepUp(j.cores, |j.rows| - 2);
  }

  // One core serves its rows as they come; only row 0 must not be the idle one.
  lemma OneCoreCloses(j: Job)
    requires j.cores == 1
    ensures j.RingCloses() <==> S.Total(j.Busy(), |j.rows|) == 0 || j.rows[0].len > 0
  {
    var n, turns := |j.rows|, S.Total(j.Busy(), |j.rows|);
    var all := seq(turns, i => true);
    S.CoresAddUp(1, j.Busy(), n);
    S.CoresAddUp(1, all, turns);
    S.TotalOfAll(all, turns);
    assert S.TurnsBelow(1, 1, j.Busy(), n) == S.Turns(1, 0, j.Busy(), n);
    assert S.TurnsBelow(1, 1, all, turns) == S.Share(1, 0, turns);
  }

  // With one empty row a launch can finish exactly when it is the last row, or on one core any but the first.
  lemma EmptyRowMustBeLast(j: Job, s: State, e: nat)
    requires Init(j, s) && e < |j.rows|
    requires forall r :: 0 <= r < |j.rows| ==> (j.rows[r].len == 0 <==> r == e)
    ensures (exists t: seq<State> :: Run(j, t) && t[0] == s && AllFinished(t[|t| - 1]))
       <==> e == |j.rows| - 1 || (j.cores == 1 && e > 0)
  {
    FinishesExactlyWhenRingCloses(j, s);
    if e == |j.rows| - 1 {
      NoneEmptyCloses(j);
    } else if j.cores == 1 {
      OneCoreCloses(j);
      OneMissing(j.Busy(), e, |j.rows|);
    } else {
      EmptyRowOpens(j, e);
    }
  }

  // The slots of two cores, row by row.
  lemma NextSlots(b: seq<bool>, n: nat)
    requires n < |b|
    ensures S.Total(b, n + 1) == S.Total(b, n) + if b[n] then 1 else 0
    ensures S.Slot(2, 0, b, n + 1) == S.Slot(2, 0, b, n) + if n % 2 == 0 && b[n] then 2 else 0
    ensures S.Slot(2, 1, b, n + 1) == S.Slot(2, 1, b, n) + if n % 2 == 1 && b[n] then 2 else 0
  {
  }

  // Two empty rows on two cores can cancel out: the turn skips a whole round.
  lemma TwoEmptyRowsClose(j: Job)
    requires j.cores == 2 && |j.rows| == 4
    requires forall r :: 0 <= r < 4 ==> (j.rows[r].len > 0 <==> r == 0 || r == 3)
    ensures j.RingCloses() && j.Pos(3) == 1
  {
    var b := j.Busy();
    NextSlots(b, 0);
    NextSlots(b, 1);
    NextSlots(b, 2);
    NextSlots(b, 3);
    S.ShareIsSlot(2, 0, b, 4, 2);
    S.ShareIsSlot(2, 1, b, 4, 2);
  }

  // Rows need not be served in row order.
  lemma LaterRowGoesFirst(j: Job)
    requires j.cores == 2 && |j.rows| == 5
    requires forall r :: 0 <= r < 5 ==> (j.rows[r].len > 0 <==> r == 0 || r == 2 || r == 3)
    ensures j.RingCloses() && j.Pos(3) == 1 && j.Pos(2) == 2
  {
    var b := j.Busy();
    NextSlots(b, 0);
    NextSlots(b, 1);
    NextSlots(b, 2);
    NextSlots(b, 3);
    NextSlots(b, 4);
    S.ShareIsSlot(2, 0, b, 5, 3);
    S.ShareIsSlot(2, 1, b, 5, 3);
  }

  // Without row 0 nobody starts the ring.
  lemma FirstRowMustStart(j: Job)
    requires j.cores > 0 && |j.rows| > 0 && j.rows[0].len == 0
    ensures j.RingCloses() <==> forall r :: 0 <= r < |j.rows| ==> j.rows[r].len == 0
  {
    if j.RingCloses() {
      forall r | 0 <= r < |j.rows|
        ensures j.rows[r].len == 0
      {
        if j.rows[r].len > 0 {
          StartsRing(j, r);
        }
      }
    } else if forall r :: 0 <= r < |j.rows| ==> j.rows[r].len == 0 {
      NoneBusy(j.Busy(), |j.rows|);
    }
  }

  lemma {:induction false} NoneBusy(busy: seq<bool>, n: nat)
    requires n <= |busy| && forall i :: 0 <= i < |busy| ==> !busy[i]
    ensures S.Total(busy, n) == 0
  {
    if n > 0 {
      NoneBusy(busy, n - 1);
    }
  }
}
