/** Every run of the cache-assign kernel ends, and it ends with all rows served exactly when the ring closes. */
module AssignCacheProgress {
  import opened AssignCache
  import opened AssignCacheRing
  import S = ServiceOrder

  // ----- every run ends -----

  // Moves that a row has left, at most.
  function MovesOf(row: Row, p: Phase): nat {
    match p
    case Copying(off) => (if off <= row.len then row.len - off else 0) + 4
    case Loaded(off, buf) => 3
    case Granted(off, buf) => 2
    case Written => 1
    case Finished => 0
  }

  function MovesLeft(rows: seq<Row>, phases: seq<Phase>): nat
    requires |rows| == |phases|
  {
    if rows == [] then 0
    else MovesLeft(rows[..|rows| - 1], phases[..|rows| - 1]) + MovesOf(rows[|rows| - 1], phases[|rows| - 1])
  }

  lemma {:induction false} OneRowMoves(rows: seq<Row>, phases: seq<Phase>, r: nat, p: Phase)
    requires |rows| == |phases| && r < |rows|
    ensures MovesLeft(rows, phases[r := p]) == MovesLeft(rows, phases) - MovesOf(rows[r], phases[r]) + MovesOf(rows[r], p)
  {
    var n := |rows| - 1;
    if r < n {
      OneRowMoves(rows[..n], phases[..n], r, p);
      assert phases[r := p][..n] == phases[..n][r := p];
    } else {
      assert phases[r := p][..n] == phases[..n];
    }
  }

  lemma StepUsesMoves(j: Job, s: State, step: Step)
    requires Fits(j, s) && j.Valid(|s.dst|) && Enabled(j, s, step)
    ensures MovesLeft(j.rows, After(j, s, step).phases) < MovesLeft(j.rows, s.phases)
  {
    OneRowMoves(j.rows, s.phases, step.r, After(j, s, step).phases[step.r]);
  }

  // No run is longer than the moves there are at its start.
  lemma {:induction false} RunsAreBounded(j: Job, t: seq<State>, i: nat)
    requires Run(j, t) && i < |t|
    ensures Fits(j, t[i]) && MovesLeft(j.rows, t[i].phases) + i <= MovesLeft(j.rows, t[0].phases)
  {
    if i > 0 {
      RunsAreBounded(j, t, i - 1);
      NextInChain(j, t, i);
      NextUsesMoves(j, t[i - 1], t[i]);
    }
  }

  lemma NextUsesMoves(j: Job, s: State, s': State)
    requires Next(j, s, s')
    ensures Fits(j, s') && MovesLeft(j.rows, s'.phases) < MovesLeft(j.rows, s.phases)
  {
    var step :| Enabled(j, s, step) && s' == After(j, s, step);
    StepUsesMoves(j, s, step);
  }

  // ----- a ring that closes -----

  function AllTurns(j: Job): nat {
    S.Total(j.Busy(), |j.rows|)
  }

  lemma {:induction false} BusyIsCounted(busy: seq<bool>, r: nat, n: nat)
    requires r < n <= |busy| && busy[r]
    ensures S.Total(busy, n) > 0
  {
    if r < n - 1 {
      BusyIsCounted(busy, r, n - 1);
    }
  }

  lemma ClosedPos(j: Job, r: nat)
    requires j.cores > 0 && j.RingCloses() && r < |j.rows| && j.rows[r].len > 0
    ensures j.Pos(r) < AllTurns(j)
  {
    var n, k := |j.rows|, FlagIndex(j, r);
    BusyIsCounted(j.Busy(), r, n);
    S.ShareIsSlot(j.cores, k, j.Busy(), n, AllTurns(j));
    S.SlotRises(j.cores, k, j.Busy(), r, n);
  }

  lemma ClosedTaken(j: Job, v: nat)
    requires j.cores > 0 && j.RingCloses() && v < AllTurns(j)
    ensures Taken(j, v)
  {
    var k := FlagIndex(j, v);
    S.ShareIsSlot(j.cores, k, j.Busy(), |j.rows|, AllTurns(j));
  }

  lemma ClosedLast(j: Job)
    requires j.cores > 0 && j.RingCloses() && |j.rows| > 0 && j.rows[|j.rows| - 1].len > 0
    ensures j.Pos(|j.rows| - 1) + 1 == AllTurns(j)
  {
    var n, e := |j.rows|, |j.rows| - 1;
    var k := FlagIndex(j, e);
    ClosedPos(j, e);
    S.ShareIsSlot(j.cores, k, j.Busy(), n, AllTurns(j));
    S.PosCore(j.cores, j.Busy(), e);
    S.CloseRemainder(j.cores, j.Pos(e), AllTurns(j) - 1);
  }

  // ----- the next step -----

  // What an undisturbed read gives.
  ghost function ReadNow(j: Job, s: State, r: nat, off: nat): (buf: seq<int>)
    requires Fits(j, s) && j.blk > 0 && r < |j.rows| && off <= j.rows[r].len
    ensures MayRead(j, s, r, off, buf)
  {
    var row := j.rows[r];
    seq(j.Width(row.len - off), i requires 0 <= i < j.Width(row.len - off) =>
      if i < row.len - off then (if row.src + off + i < |j.src| then j.src[row.src + off + i] else 0)
      else if row.dst + off + i < |s.dst| then s.dst[row.dst + off + i] else 0)
  }

  ghost predicate Undisturbed(j: Job, s: State, step: Step)
    requires Fits(j, s) && j.Valid(|s.dst|) && Enabled(j, s, step)
  {
    step.Load? ==> step.buf == ReadNow(j, s, step.r, s.phases[step.r].off)
  }

  // The first unfinished row of the core.
  lemma {:induction false} FirstOpen(j: Job, s: State, x: nat) returns (y: nat)
    requires Fits(j, s) && x < |j.rows| && !s.phases[x].Finished?
    ensures y <= x && FlagIndex(j, y) == FlagIndex(j, x) && !s.phases[y].Finished? && CanStart(j, s, y)
  {
    if CanStart(j, s, x) {
      y := x;
    } else {
      RoundBack(j.cores, x);
      y := FirstOpen(j, s, x - j.cores);
    }
  }

  // No row is between its turn and its flag.
  ghost predicate Idle(j: Job, s: State, tok: Token)
    requires Fits(j, s) && LastOk(j, tok)
  {
    tok.turn > 0 ==> s.phases[tok.last].Finished?
  }

  lemma IdleIsDone(j: Job, s: State, tok: Token, r: nat)
    requires Inv(j, s, tok) && Idle(j, s, tok) && r < |j.rows| && j.rows[r].len > 0 && j.Pos(r) < tok.turn
    ensures s.phases[r].Finished?
  {
    assert TurnOk(j, tok.turn, r, s.phases[r]);
    if j.Pos(r) + 1 == tok.turn {
      SamePos(j, r, tok.last);
    }
  }

  // A row less than a round ahead of the turn can be brought on: itself, or an empty row of its core before it.
  lemma CoreStep(j: Job, s: State, tok: Token, x: nat) returns (step: Step)
    requires Inv(j, s, tok) && Idle(j, s, tok) && x < |j.rows| && j.rows[x].len > 0 && s.phases[x].Copying?
    requires j.Pos(x) < tok.turn + j.cores
    ensures Enabled(j, s, step) && Undisturbed(j, s, step)
    ensures if step.r == x then step.Early? || step.Load? else step.Skip?
  {
    var y := FirstOpen(j, s, x);
    if y == x {
      step := OwnStep(j, s, x);
    } else {
      if j.rows[y].len > 0 {
        S.PosRises(j.cores, j.Busy(), y, x);
        IdleIsDone(j, s, tok, y);
      }
      assert TurnOk(j, tok.turn, y, s.phases[y]);
      step := Skip(y);
    }
  }

  lemma OwnStep(j: Job, s: State, x: nat) returns (step: Step)
    requires Fits(j, s) && j.Valid(|s.dst|) && x < |j.rows| && PhaseFits(j, x, s.phases[x])
    requires j.rows[x].len > 0 && s.phases[x].Copying? && CanStart(j, s, x)
    ensures Enabled(j, s, step) && Undisturbed(j, s, step) && step.r == x && (step.Early? || step.Load?)
  {
    var off := s.phases[x].off;
    if off + j.unit < j.rows[x].len {
      step := Early(x);
    } else {
      step := Load(x, ReadNow(j, s, x, off));
    }
  }

  // While the ring closes there is a next step, of a row whose turn is not later than the ring's.
  lemma HasNext(j: Job, s: State, tok: Token) returns (step: Step)
    requires Inv(j, s, tok) && j.RingCloses() && !AllFinished(s)
    ensures Enabled(j, s, step) && Undisturbed(j, s, step)
    ensures step.Skip? || j.Pos(step.r) <= tok.turn
    ensures !Idle(j, s, tok) ==> step.r == tok.last && (step.Put? || step.Set?)
    ensures Idle(j, s, tok) && !step.Skip? ==> j.Pos(step.r) == tok.turn < AllTurns(j)
  {
    if !Idle(j, s, tok) {
      step := HolderMoves(j, s, tok);
    } else if tok.turn < AllTurns(j) {
      ClosedTaken(j, tok.turn);
      var x := RowOf(j, tok.turn);
      step := TurnMoves(j, s, tok, x);
    } else {
      step := LeftOver(j, s, tok);
    }
  }

  lemma HolderMoves(j: Job, s: State, tok: Token) returns (step: Step)
    requires Inv(j, s, tok) && !Idle(j, s, tok)
    ensures Enabled(j, s, step) && step.r == tok.last && (step.Put? || step.Set?)
  {
    var r := tok.last;
    assert TurnOk(j, tok.turn, r, s.phases[r]) && PhaseFits(j, r, s.phases[r]);
    if s.phases[r].Granted? {
      Inside(j, r, |s.dst|);
      step := Put(r);
    } else {
      step := Set(r);
    }
  }

  lemma TurnMoves(j: Job, s: State, tok: Token, x: nat) returns (step: Step)
    requires Inv(j, s, tok) && j.RingCloses() && Idle(j, s, tok)
    requires x < |j.rows| && j.rows[x].len > 0 && j.Pos(x) == tok.turn
    ensures Enabled(j, s, step) && Undisturbed(j, s, step)
    ensures if step.r == x then step.Early? || step.Load? || step.Wait? else step.Skip?
  {
    assert TurnOk(j, tok.turn, x, s.phases[x]);
    if s.phases[x].Copying? {
      step := CoreStep(j, s, tok, x);
    } else {
      FlagIsUp(j, s, tok, x);
      step := Wait(x);
    }
  }

  lemma FlagIsUp(j: Job, s: State, tok: Token, x: nat)
    requires Inv(j, s, tok) && j.RingCloses() && Idle(j, s, tok)
    requires x < |j.rows| && j.rows[x].len > 0 && j.Pos(x) == tok.turn
    ensures x == 0 || Flag(j, s, x - 1) > 0
  {
    if tok.turn == 0 {
      FirstPos(j);
      StartsRing(j, x);
      SamePos(j, x, 0);
    } else if x > 0 {
      FlagNamesTurn(j, tok, x);
      ClosedPos(j, x);
      if tok.last == |j.rows| - 1 {
        ClosedLast(j);
      }
    }
  }

  lemma StartsRing(j: Job, x: nat)
    requires j.cores > 0 && j.RingCloses() && x < |j.rows| && j.rows[x].len > 0
    ensures j.rows[0].len > 0
  {
    BusyIsCounted(j.Busy(), x, |j.rows|);
  }

  // When all turns are over, only empty rows are left.
  lemma LeftOver(j: Job, s: State, tok: Token) returns (step: Step)
    requires Inv(j, s, tok) && j.RingCloses() && Idle(j, s, tok) && !AllFinished(s) && tok.turn >= AllTurns(j)
    ensures Enabled(j, s, step) && step.Skip?
  {
    var e :| 0 <= e < |s.phases| && !s.phases[e].Finished?;
    var y := FirstOpen(j, s, e);
    if j.rows[y].len > 0 {
      ClosedPos(j, y);
      IdleIsDone(j, s, tok, y);
    }
    assert TurnOk(j, tok.turn, y, s.phases[y]);
    step := Skip(y);
  }

  // No deadlock: while the ring closes, a run that has not finished can go on.
  lemma NeverStuck(j: Job, t: seq<State>, i: nat)
    requires Run(j, t) && j.RingCloses() && i < |t| && !AllFinished(t[i])
    ensures exists s' :: Next(j, t[i], s')
  {
    var tok := RunKeepsInv(j, t, i);
    var step := HasNext(j, t[i], tok);
    assert Next(j, t[i], After(j, t[i], step));
  }

  // ----- from one state to another -----

  // A step in which the core reads what stands there.
  ghost predicate CalmNext(j: Job, s: State, s': State) {
    && Fits(j, s) && j.Valid(|s.dst|)
    && exists step :: Enabled(j, s, step) && Undisturbed(j, s, step) && s' == After(j, s, step)
  }

  ghost predicate CalmAt(j: Job, t: seq<State>, i: nat)
    requires i < |t| - 1
  {
    CalmNext(j, t[i], t[i + 1])
  }

  ghost predicate Calm(j: Job, t: seq<State>) {
    forall i :: 0 <= i < |t| - 1 ==> CalmAt(j, t, i)
  }

  lemma CalmIsChained(j: Job, t: seq<State>)
    requires Calm(j, t)
    ensures Chained(j, t)
  {
    forall i | 0 <= i < |t| - 1
      ensures Link(j, t, i)
    {
      assert CalmAt(j, t, i);
    }
  }

  ghost predicate Leads(j: Job, s: State, e: State) {
    exists t: seq<State> :: Calm(j, t) && t != [] && t[0] == s && t[|t| - 1] == e
  }

  lemma StaysPut(j: Job, s: State)
    ensures Leads(j, s, s)
  {
    assert Calm(j, [s]);
  }

  lemma StepsOn(j: Job, s: State, step: Step, e: State)
    requires Fits(j, s) && j.Valid(|s.dst|) && Enabled(j, s, step) && Undisturbed(j, s, step)
    requires Leads(j, After(j, s, step), e)
    ensures Leads(j, s, e)
  {
    CalmOn(j, s, After(j, s, step), e);
  }

  lemma CalmOn(j: Job, s: State, s': State, e: State)
    requires CalmNext(j, s, s') && Leads(j, s', e)
    ensures Leads(j, s, e)
  {
    var rest: seq<State> :| Calm(j, rest) && rest != [] && rest[0] == s' && rest[|rest| - 1] == e;
    CalmGrows(j, s, rest);
    CalmEnds(j, [s] + rest);
  }

  lemma CalmEnds(j: Job, t: seq<State>)
    requires Calm(j, t) && t != []
    ensures Leads(j, t[0], t[|t| - 1])
  {
  }

  lemma CalmGrows(j: Job, s: State, rest: seq<State>)
    requires Calm(j, rest) && rest != [] && CalmNext(j, s, rest[0])
    ensures Calm(j, [s] + rest)
  {
    var t := [s] + rest;
    CalmFirst(j, t);
    forall i | 0 < i < |t| - 1
      ensures CalmAt(j, t, i)
    {
      CalmShifts(j, rest, i - 1, t, i);
    }
  }

  lemma CalmFirst(j: Job, t: seq<State>)
    requires |t| > 1 && CalmNext(j, t[0], t[1])
    ensures CalmAt(j, t, 0)
  {
  }

  lemma CalmShifts(j: Job, t: seq<State>, i: nat, t': seq<State>, i': nat)
    requires i < |t| - 1 && i' < |t'| - 1 && CalmAt(j, t, i) && t'[i'] == t[i] && t'[i' + 1] == t[i + 1]
    ensures CalmAt(j, t', i')
  {
  }

  lemma LeadsOn(j: Job, s: State, u: State, e: State)
    requires Leads(j, s, u) && Leads(j, u, e)
    ensures Leads(j, s, e)
  {
    var t: seq<State> :| Calm(j, t) && t != [] && t[0] == s && t[|t| - 1] == u;
    CalmLeads(j, t, |t| - 1, e);
  }

  lemma CalmBack(j: Job, t: seq<State>, i: nat, e: State)
    requires Calm(j, t) && 0 < i < |t| && Leads(j, t[i], e)
    ensures Leads(j, t[i - 1], e)
  {
    CalmLink(j, t, i);
    CalmOn(j, t[i - 1], t[i], e);
  }

  lemma CalmLink(j: Job, t: seq<State>, i: nat)
    requires Calm(j, t) && 0 < i < |t|
    ensures CalmNext(j, t[i - 1], t[i])
  {
    assert CalmAt(j, t, i - 1);
  }

  lemma {:induction false} CalmLeads(j: Job, t: seq<State>, i: nat, e: State)
    requires Calm(j, t) && i < |t| && Leads(j, t[i], e)
    ensures Leads(j, t[0], e)
  {
    if i > 0 {
      CalmBack(j, t, i, e);
      CalmLeads(j, t, i - 1, e);
    }
  }

  lemma {:induction false} Completes(j: Job, s: State, tok: Token) returns (e: State)
    requires Inv(j, s, tok) && j.RingCloses()
    ensures Leads(j, s, e) && AllFinished(e)
    decreases MovesLeft(j.rows, s.phases)
  {
    if AllFinished(s) {
      StaysPut(j, s);
      e := s;
    } else {
      var step := HasNext(j, s, tok);
      StepKeepsInv(j, s, tok, step);
      StepUsesMoves(j, s, step);
      e := Completes(j, After(j, s, step), NextToken(tok, step));
      StepsOn(j, s, step, e);
    }
  }

  // ----- a run that finishes has closed the ring -----

  lemma SlotAtEnd(j: Job, s: State, tok: Token, k: nat)
    requires Inv(j, s, tok) && AllFinished(s) && k < j.cores
    ensures tok.turn <= S.Slot(j.cores, k, j.Busy(), |j.rows|) < tok.turn + j.cores
  {
    var c, slot := j.cores, S.Slot(j.cores, k, j.Busy(), |j.rows|);
    S.SlotCore(c, k, j.Busy(), |j.rows|);
    if slot >= c {
      RoundBack(c, slot);
      var p := S.FindTurn(c, k, j.Busy(), |j.rows|, slot - c);
      assert TurnOk(j, tok.turn, p, s.phases[p]);
    }
    assert !Taken(j, slot);
  }

  lemma SharesAtEnd(j: Job, s: State, tok: Token)
    requires Inv(j, s, tok) && AllFinished(s)
    ensures tok.turn == AllTurns(j)
    ensures forall k :: 0 <= k < j.cores ==> S.Turns(j.cores, k, j.Busy(), |j.rows|) == S.Share(j.cores, k, tok.turn)
  {
    forall k | 0 <= k < j.cores
      ensures S.Turns(j.cores, k, j.Busy(), |j.rows|) == S.Share(j.cores, k, tok.turn)
    {
      SlotAtEnd(j, s, tok, k);
      S.ShareIsSlot(j.cores, k, j.Busy(), |j.rows|, tok.turn);
    }
    S.SharesAddUp(j.cores, j.Busy(), |j.rows|, tok.turn);
  }

  lemma LastTurnAtEnd(j: Job, s: State, tok: Token)
    requires Inv(j, s, tok) && AllFinished(s) && tok.turn > 0 && j.rows[|j.rows| - 1].len > 0
    ensures (|j.rows| - 1) % j.cores == (tok.turn - 1) % j.cores
  {
    var e := |j.rows| - 1;
    assert TurnOk(j, tok.turn, e, s.phases[e]);
    S.PosCore(j.cores, j.Busy(), e);
  }

  lemma FinishedCloses(j: Job, s: State, tok: Token)
    requires Inv(j, s, tok) && AllFinished(s)
    ensures j.RingCloses()
  {
    SharesAtEnd(j, s, tok);
    if tok.turn > 0 && j.rows[|j.rows| - 1].len > 0 {
      LastTurnAtEnd(j, s, tok);
    }
  }

  // Whatever the rows are, a launch can finish exactly when the ring closes.
  lemma FinishesExactlyWhenRingCloses(j: Job, s: State)
    requires Init(j, s)
    ensures (exists t: seq<State> :: Run(j, t) && t[0] == s && AllFinished(t[|t| - 1])) <==> j.RingCloses()
  {
    if j.RingCloses() {
      StartsOk(j, s);
      var e := Completes(j, s, Token(0, 0));
      var t: seq<State> :| Calm(j, t) && t != [] && t[0] == s && t[|t| - 1] == e;
      CalmIsChained(j, t);
      assert Run(j, t);
    } else {
      forall t: seq<State> | Run(j, t) && t[0] == s
        ensures !AllFinished(t[|t| - 1])
      {
        if AllFinished(t[|t| - 1]) {
          var tok := RunKeepsInv(j, t, |t| - 1);
          FinishedCloses(j, t[|t| - 1], tok);
        }
      }
    }
  }
}
