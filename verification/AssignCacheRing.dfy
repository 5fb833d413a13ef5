/** The ring of flags of the cache-assign kernel, for all rows: in which order rows are served, that a launch never
    gets stuck while the ring closes, and that it cannot finish otherwise. */
module AssignCacheRing {
  import opened Arith
  import opened Swizzle
  import opened AssignCache
  import S = ServiceOrder

  // How many turns were taken, and by which row the last of them.
  datatype Token = Token(turn: nat, last: nat)

  // A row that has had its turn.
  predicate Past(p: Phase) {
    p.Granted? || p.Written? || p.Finished?
  }

  // Rows that had their turn are finished, up to the last of them; an empty row has nothing to do.
  ghost predicate TurnOk(j: Job, turn: nat, r: nat, p: Phase)
    requires j.cores > 0 && r < |j.rows|
  {
    if j.rows[r].len == 0 then p == Copying(0) || p.Finished?
    else if j.Pos(r) + 1 < turn then p.Finished?
    else if j.Pos(r) + 1 == turn then Past(p)
    else p.Copying? || p.Loaded?
  }

  // The last row that had its turn is done, and has set its flag.
  ghost predicate HandedOn(j: Job, s: State, tok: Token)
    requires Fits(j, s)
  {
    tok.turn > 0 && tok.last < |j.rows| - 1 && s.phases[tok.last].Finished?
  }

  ghost predicate FlagsOk(j: Job, s: State, tok: Token)
    requires Fits(j, s)
  {
    forall i :: 0 <= i < j.cores ==> s.flags[i] == if HandedOn(j, s, tok) && i == FlagIndex(j, tok.last) then 1 else 0
  }

  // Turn v belongs to some row.
  predicate Taken(j: Job, v: nat)
    requires j.cores > 0
  {
    DivModIs(v, j.cores);
    v < S.Slot(j.cores, v % j.cores, j.Busy(), |j.rows|)
  }

  ghost predicate LastOk(j: Job, tok: Token)
    requires j.cores > 0
  {
    tok.turn > 0 ==> tok.last < |j.rows| && j.rows[tok.last].len > 0 && j.Pos(tok.last) + 1 == tok.turn
  }

  // The turns so far were those of rows, the first of them row 0, and the last row ends them.
  ghost predicate Reached(j: Job, turn: nat)
    requires j.cores > 0
  {
    && (forall v :: 0 <= v < turn ==> Taken(j, v))
    && (turn > 0 ==> |j.rows| > 0 && j.rows[0].len > 0)
    && (turn > 0 && j.rows[|j.rows| - 1].len > 0 ==> turn <= j.Pos(|j.rows| - 1) + 1)
  }

  // A row under way follows a finished row of its core.
  ghost predicate OrderOk(j: Job, s: State)
    requires Fits(j, s)
  {
    forall r :: 0 <= r < |j.rows| && s.phases[r] != Copying(0) ==> CanStart(j, s, r)
  }

  ghost predicate RingOk(j: Job, s: State, tok: Token)
    requires Fits(j, s)
  {
    && (forall r :: 0 <= r < |j.rows| ==> TurnOk(j, tok.turn, r, s.phases[r]))
    && LastOk(j, tok) && FlagsOk(j, s, tok) && Reached(j, tok.turn)
  }

  // ----- the turns of rows -----

  lemma SamePos(j: Job, p: nat, r: nat)
    requires j.cores > 0 && p < |j.rows| && r < |j.rows| && j.rows[p].len > 0 && j.rows[r].len > 0 && j.Pos(p) == j.Pos(r)
    ensures p == r
  {
    S.PosDiffers(j.cores, j.Busy(), p, r);
  }

  // A row that is not among the first of its core follows a busy row of it, whose turn is a round earlier.
  lemma RowBefore(j: Job, r: nat) returns (p: nat)
    requires j.cores > 0 && r < |j.rows| && j.rows[r].len > 0 && j.Pos(r) >= j.cores
    ensures p < r && FlagIndex(j, p) == FlagIndex(j, r) && j.rows[p].len > 0 && j.Pos(p) + j.cores == j.Pos(r)
  {
    var c, k := j.cores, FlagIndex(j, r);
    S.SlotCore(c, k, j.Busy(), r);
    RoundBack(c, j.Pos(r));
    p := S.FindTurn(c, k, j.Busy(), r, j.Pos(r) - c);
  }

  lemma RoundBack(c: nat, a: nat)
    requires c > 0 && a >= c
    ensures (a - c) % c == a % c
  {
    DivModIs(a, c);
    Distribute(a / c, -1, c);
    DivUnique(a - c, c, a / c - 1);
  }

  lemma FirstPos(j: Job)
    requires j.cores > 0 && |j.rows| > 0
    ensures j.Pos(0) == 0
  {
    S.PosOfAll(j.cores, j.Busy(), 0);
  }

  // The row that has the turn.
  lemma RowOf(j: Job, v: nat) returns (r: nat)
    requires j.cores > 0 && Taken(j, v)
    ensures r < |j.rows| && j.rows[r].len > 0 && j.Pos(r) == v
  {
    DivModIs(v, j.cores);
    r := S.FindTurn(j.cores, v % j.cores, j.Busy(), |j.rows|, v);
  }

  lemma RowTakes(j: Job, r: nat)
    requires j.cores > 0 && r < |j.rows| && j.rows[r].len > 0
    ensures Taken(j, j.Pos(r))
  {
    S.PosCore(j.cores, j.Busy(), r);
    S.SlotRises(j.cores, FlagIndex(j, r), j.Busy(), r, |j.rows|);
  }

  // ----- the cores -----

  lemma {:induction false} CoreDone(j: Job, s: State, p: nat, r: nat)
    requires Fits(j, s) && OrderOk(j, s) && p < r < |j.rows| && FlagIndex(j, p) == FlagIndex(j, r) && CanStart(j, s, r)
    ensures s.phases[p].Finished?
    decreases r
  {
    S.SameRemainder(j.cores, p, r);
    if p < r - j.cores {
      RoundBack(j.cores, r);
      CoreDone(j, s, p, r - j.cores);
    }
  }

  // A row can begin when its core is done with the rows before it, so a busy row with a turn at least a round
  // earlier is finished.
  lemma BeforeIsDone(j: Job, s: State, tok: Token, q: nat, r: nat)
    requires Fits(j, s) && RingOk(j, s, tok) && OrderOk(j, s) && q < |j.rows| && r < |j.rows|
    requires j.Before(q, r) && CanStart(j, s, r)
    ensures s.phases[q].Finished?
  {
    var p := RowBefore(j, r);
    CoreDone(j, s, p, r);
    assert TurnOk(j, tok.turn, p, s.phases[p]);
    assert TurnOk(j, tok.turn, q, s.phases[q]);
    if j.Pos(q) == j.Pos(p) {
      SamePos(j, q, p);
    }
  }

  // ----- the chunks -----

  // Between chunks the rest of a row still ends in the same tail.
  predicate OffOk(j: Job, r: nat, off: nat)
    requires j.unit > 0 && r < |j.rows|
  {
    off <= j.rows[r].len && (off < j.rows[r].len ==> TailOf(j.rows[r].len - off, j.unit) == j.Tail(r))
  }

  function TailOf(n: nat, unit: nat): int
    requires unit > 0
  {
    if n > 0 && n % unit == 0 then unit else n % unit
  }

  lemma TailOfLess(n: nat, unit: nat)
    requires unit > 0
    ensures n > unit ==> TailOf(n - unit, unit) == TailOf(n, unit)
    ensures 0 < n <= unit ==> TailOf(n, unit) == n
  {
    DivModIs(n, unit);
    if n > unit {
      Distribute(n / unit, -1, unit);
      DivUnique(n - unit, unit, n / unit - 1);
    } else if n == unit {
      DivModOfSum(1, unit, 0);
    } else if n > 0 {
      DivModOfSum(0, unit, n);
    }
  }

  // A buffered last chunk ends where the row reaches to.
  ghost predicate BufFits(j: Job, r: nat, off: nat, buf: seq<int>)
    requires j.blk > 0 && j.unit > 0 && r < |j.rows|
  {
    off < j.rows[r].len <= off + j.unit && OffOk(j, r, off) && j.rows[r].dst + off + |buf| == j.Reach(r)
  }

  // A row with something copied but not all of it is copied in several chunks.
  ghost predicate PhaseFits(j: Job, r: nat, p: Phase)
    requires j.blk > 0 && j.unit > 0 && r < |j.rows|
  {
    match p
    case Copying(off) => OffOk(j, r, off) && (off > 0 ==> off < j.rows[r].len && j.rows[r].len > j.unit)
    case Loaded(off, buf) => BufFits(j, r, off, buf) && (off > 0 ==> j.rows[r].len > j.unit)
    case Granted(off, buf) => BufFits(j, r, off, buf)
    case Written => true
    case Finished => true
  }

  // ----- what every step keeps -----

  ghost predicate Inv(j: Job, s: State, tok: Token) {
    && Fits(j, s) && j.Valid(|s.dst|) && RingOk(j, s, tok) && OrderOk(j, s)
    && forall r :: 0 <= r < |j.rows| ==> PhaseFits(j, r, s.phases[r])
  }

  lemma StartsOk(j: Job, s: State)
    requires Init(j, s)
    ensures Inv(j, s, Token(0, 0))
  {
    forall r | 0 <= r < |j.rows|
      ensures PhaseFits(j, r, s.phases[r])
    {
      TailBounds(j.rows[r].len, j.unit);
    }
  }

  // The row that may go on is the row whose turn it is: on the core of any other row that meets a raised flag, an
  // earlier row would be unfinished.
  lemma WaiterHasTurn(j: Job, s: State, tok: Token, r: nat)
    requires Inv(j, s, tok) && Enabled(j, s, Wait(r))
    ensures j.rows[r].len > 0 && j.Pos(r) == tok.turn
    ensures if tok.turn == 0 then r == 0 else HandedOn(j, s, tok)
  {
    assert TurnOk(j, tok.turn, r, s.phases[r]);
    if r == 0 {
      FirstPos(j);
    } else {
      FlagNamesTurn(j, tok, r);
      var turn, pos := tok.turn, j.Pos(r);
      if turn < pos {
        S.SameRemainder(j.cores, turn, pos);
        TooEarly(j, s, tok, r);
      }
    }
  }

  lemma TooEarly(j: Job, s: State, tok: Token, r: nat)
    requires Fits(j, s) && RingOk(j, s, tok) && OrderOk(j, s)
    requires r < |j.rows| && j.rows[r].len > 0 && tok.turn + j.cores <= j.Pos(r)
    ensures !CanStart(j, s, r)
  {
    var p := RowBefore(j, r);
    assert TurnOk(j, tok.turn, p, s.phases[p]);
    if CanStart(j, s, r) {
      CoreDone(j, s, p, r);
    }
  }

  lemma FlagNamesTurn(j: Job, tok: Token, r: nat)
    requires j.cores > 0 && LastOk(j, tok) && tok.turn > 0 && 0 < r < |j.rows|
    ensures FlagIndex(j, r - 1) == FlagIndex(j, tok.last) <==> j.Pos(r) % j.cores == tok.turn % j.cores
  {
    S.PosCore(j.cores, j.Busy(), r);
    S.PosCore(j.cores, j.Busy(), tok.last);
    S.NextRemainder(j.cores, r - 1, tok.turn - 1);
  }

  lemma WaitKeepsRing(j: Job, s: State, tok: Token, r: nat)
    requires Inv(j, s, tok) && Enabled(j, s, Wait(r))
    ensures RingOk(j, After(j, s, Wait(r)), Token(tok.turn + 1, r))
  {
    var s', tok' := After(j, s, Wait(r)), Token(tok.turn + 1, r);
    WaiterHasTurn(j, s, tok, r);
    WaitKeepsReached(j, tok, r);
    forall x | 0 <= x < |j.rows|
      ensures TurnOk(j, tok'.turn, x, s'.phases[x])
    {
      WaitKeepsTurn(j, s, tok, r, x);
    }
    WaitKeepsFlags(j, s, tok, r);
  }

  lemma WaitKeepsTurn(j: Job, s: State, tok: Token, r: nat, x: nat)
    requires Inv(j, s, tok) && Enabled(j, s, Wait(r)) && j.rows[r].len > 0 && j.Pos(r) == tok.turn && x < |j.rows|
    requires tok.turn > 0 ==> HandedOn(j, s, tok)
    ensures TurnOk(j, tok.turn + 1, x, After(j, s, Wait(r)).phases[x])
  {
    assert TurnOk(j, tok.turn, x, s.phases[x]);
    if x != r && j.rows[x].len > 0 {
      if j.Pos(x) == j.Pos(r) {
        SamePos(j, x, r);
      }
      if j.Pos(x) + 1 == tok.turn {
        SamePos(j, x, tok.last);
      }
    }
  }

  lemma WaitKeepsReached(j: Job, tok: Token, r: nat)
    requires j.cores > 0 && r < |j.rows| && j.rows[r].len > 0 && j.Pos(r) == tok.turn && Reached(j, tok.turn) && LastOk(j, tok)
    requires if tok.turn == 0 then r == 0 else tok.last < |j.rows| - 1
    ensures Reached(j, tok.turn + 1) && LastOk(j, Token(tok.turn + 1, r))
  {
    RowTakes(j, r);
    var e := |j.rows| - 1;
    if tok.turn > 0 && j.rows[e].len > 0 && j.Pos(e) + 1 == tok.turn {
      SamePos(j, e, tok.last);
    }
  }

  lemma WaitKeepsFlags(j: Job, s: State, tok: Token, r: nat)
    requires Inv(j, s, tok) && Enabled(j, s, Wait(r)) && j.Pos(r) == tok.turn
    requires if tok.turn == 0 then r == 0 else HandedOn(j, s, tok)
    ensures FlagsOk(j, After(j, s, Wait(r)), Token(tok.turn + 1, r))
  {
    if tok.turn > 0 {
      if r == 0 {
        FirstPos(j);
      } else {
        FlagNamesTurn(j, tok, r);
      }
    }
  }

  lemma SetKeepsRing(j: Job, s: State, tok: Token, r: nat)
    requires Inv(j, s, tok) && Enabled(j, s, Set(r))
    ensures RingOk(j, After(j, s, Set(r)), tok)
  {
    assert TurnOk(j, tok.turn, r, s.phases[r]);
    SamePos(j, r, tok.last);
  }

  lemma OtherKeepsRing(j: Job, s: State, tok: Token, step: Step)
    requires Inv(j, s, tok) && Enabled(j, s, step) && !step.Wait? && !step.Set?
    ensures RingOk(j, After(j, s, step), tok)
  {
    OtherKeepsTurn(j, s, tok, step);
    OtherKeepsFlags(j, s, tok, step);
  }

  lemma OtherKeepsTurn(j: Job, s: State, tok: Token, step: Step)
    requires Inv(j, s, tok) && Enabled(j, s, step) && !step.Wait? && !step.Set?
    ensures TurnOk(j, tok.turn, step.r, After(j, s, step).phases[step.r])
  {
    assert TurnOk(j, tok.turn, step.r, s.phases[step.r]);
  }

  lemma OtherKeepsFlags(j: Job, s: State, tok: Token, step: Step)
    requires Inv(j, s, tok) && Enabled(j, s, step) && !step.Wait? && !step.Set?
    ensures Fits(j, After(j, s, step)) && FlagsOk(j, After(j, s, step), tok)
  {
    assert TurnOk(j, tok.turn, step.r, s.phases[step.r]);
    assert HandedOn(j, After(j, s, step), tok) == HandedOn(j, s, tok);
  }

  lemma StepKeepsOrder(j: Job, s: State, step: Step)
    requires Fits(j, s) && j.Valid(|s.dst|) && OrderOk(j, s) && Enabled(j, s, step)
    ensures Fits(j, After(j, s, step)) && OrderOk(j, After(j, s, step))
  {
  }

  lemma StepFits(j: Job, s: State, tok: Token, step: Step)
    requires Inv(j, s, tok) && Enabled(j, s, step)
    ensures forall r :: 0 <= r < |j.rows| ==> PhaseFits(j, r, After(j, s, step).phases[r])
  {
    MovedFits(j, s, tok, step);
    OneMoves(j, s, step);
    forall r | 0 <= r < |j.rows|
      ensures PhaseFits(j, r, After(j, s, step).phases[r])
    {
      assert PhaseFits(j, r, s.phases[r]);
    }
  }

  lemma OneMoves(j: Job, s: State, step: Step)
    requires Fits(j, s) && j.Valid(|s.dst|) && Enabled(j, s, step)
    ensures |After(j, s, step).phases| == |s.phases| && |After(j, s, step).dst| == |s.dst|
    ensures forall r :: 0 <= r < |s.phases| && r != step.r ==> After(j, s, step).phases[r] == s.phases[r]
  {
  }

  lemma MovedFits(j: Job, s: State, tok: Token, step: Step)
    requires Inv(j, s, tok) && Enabled(j, s, step)
    ensures PhaseFits(j, step.r, After(j, s, step).phases[step.r])
  {
    var r := step.r;
    assert PhaseFits(j, r, s.phases[r]);
    if step.Early? {
      EarlyFits(j, r, s.phases[r].off);
    } else if step.Load? {
      TailOfLess(j.rows[r].len - s.phases[r].off, j.unit);
    }
  }

  lemma EarlyFits(j: Job, r: nat, off: nat)
    requires j.blk > 0 && j.unit > 0 && r < |j.rows| && OffOk(j, r, off) && off + j.unit < j.rows[r].len
    ensures PhaseFits(j, r, Copying(off + j.unit))
  {
    TailOfLess(j.rows[r].len - off, j.unit);
  }

  ghost function NextToken(tok: Token, step: Step): Token {
    if step.Wait? then Token(tok.turn + 1, step.r) else tok
  }

  lemma StepKeepsInv(j: Job, s: State, tok: Token, step: Step)
    requires Inv(j, s, tok) && Enabled(j, s, step)
    ensures Inv(j, After(j, s, step), NextToken(tok, step))
  {
    StepKeepsOrder(j, s, step);
    StepFits(j, s, tok, step);
    if step.Wait? {
      WaitKeepsRing(j, s, tok, step.r);
    } else if step.Set? {
      SetKeepsRing(j, s, tok, step.r);
    } else {
      OtherKeepsRing(j, s, tok, step);
    }
  }

  lemma NextKeepsInv(j: Job, t: seq<State>, i: nat, tok: Token) returns (tok': Token)
    requires Chained(j, t) && 0 < i < |t| && Inv(j, t[i - 1], tok)
    ensures Inv(j, t[i], tok')
  {
    NextInChain(j, t, i);
    var step :| Enabled(j, t[i - 1], step) && t[i] == After(j, t[i - 1], step);
    StepKeepsInv(j, t[i - 1], tok, step);
    tok' := NextToken(tok, step);
  }

  lemma {:induction false} RunKeepsInv(j: Job, t: seq<State>, i: nat) returns (tok: Token)
    requires Run(j, t) && i < |t|
    ensures Inv(j, t[i], tok)
  {
    if i == 0 {
      StartsOk(j, t[0]);
      tok := Token(0, 0);
    } else {
      tok := RunKeepsInv(j, t, i - 1);
      tok := NextKeepsInv(j, t, i, tok);
    }
  }

  // At every moment at most one flag is up, and no flag counts beyond one.
  lemma OneFlagUp(j: Job, t: seq<State>, i: nat, f: nat, g: nat)
    requires Run(j, t) && i < |t| && f < |t[i].flags| && g < |t[i].flags|
    ensures 0 <= t[i].flags[f] <= 1
    ensures t[i].flags[f] > 0 && t[i].flags[g] > 0 ==> f == g
  {
    var tok := RunKeepsInv(j, t, i);
  }
}
