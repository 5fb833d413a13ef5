/** The cube-to-vector handshake of the MLA matmuls, over every interleaving of all cores: a cube core
    writes tiles and posts one signal a tile, its two vector cores consume them, and every fifth tile
    the cube core waits for the vector cores. Matmuls follow one another on the same output buffer,
    kept apart by a barrier of all vector cores and a start signal to each cube core. */
module MlaHandshake {
  import opened Arith
  import opened Swizzle

  const MAX_HW_SYNC_COUNTER: nat := 5

  // Throttled: the tile is posted, the wait for the vector cores is not over yet.
  datatype Phase = Idle | Writing | Throttled

  // A vector core: in (or, when not inside, before) matmul mm, at its own iteration; `ready` are the
  // pending tile signals to it, `credit` its pending signals back.
  datatype Vec = Vec(mm: nat, inside: bool, iter: nat, busy: bool, ready: int, credit: int)

  // A cube core and its two vector cores; ns[k] is the number of tiles that each of them has in matmul k (`SameTurns`).
  datatype Core = Core(ns: seq<nat>, mm: nat, iter: nat, phase: Phase, vecs: seq<Vec>)

  type State = seq<Core>

  datatype Step =
    | Begin           // the cube starts to write a tile, after the start signals if it is its first
    | Post            // ... has written it and signals both vector cores
    | Wait            // ... takes one signal back from each
    | Advance         // the cube goes on to the next matmul; without a tile, after the start signals
    | Enter(v: nat)   // a vector core passes the barrier and sends its start signal
    | Take(v: nat)    // ... takes a tile signal and works on the tile (or skips its empty half)
    | Give(v: nat)    // ... is done with it, and signals back in every fifth iteration
    | Leave(v: nat)   // ... arrives at the barrier after the matmul

  predicate Shaped(x: Core) {
    |x.vecs| == 2
  }

  predicate Started(v: Vec, mm: nat) {
    v.mm > mm || (v.mm == mm && v.inside)
  }

  // Both start signals for the cube's matmul were sent.
  predicate BothStarted(x: Core)
    requires Shaped(x)
  {
    Started(x.vecs[0], x.mm) && Started(x.vecs[1], x.mm)
  }

  ghost predicate AllArrived(s: State, mm: nat) {
    forall c :: 0 <= c < |s| ==> Arrived(s[c], mm)
  }

  predicate Arrived(x: Core, mm: nat) {
    |x.vecs| == 2 && x.vecs[0].mm >= mm && x.vecs[1].mm >= mm
  }

  // Whether a step of this core is possible, the barrier aside.
  predicate Enabled(x: Core, step: Step) {
    Shaped(x) &&
    match step
    case Begin => x.phase.Idle? && x.mm < |x.ns| && x.iter < x.ns[x.mm] && (x.iter == 0 ==> BothStarted(x))
    case Post => x.phase.Writing?
    case Wait => x.phase.Throttled? && x.vecs[0].credit > 0 && x.vecs[1].credit > 0
    case Advance => x.phase.Idle? && x.mm < |x.ns| && x.iter == x.ns[x.mm] && (x.iter == 0 ==> BothStarted(x))
    case Enter(v) => v < 2 && !x.vecs[v].inside && x.vecs[v].mm < |x.ns|
    case Take(v) =>
      && v < 2 && x.vecs[v].inside && !x.vecs[v].busy && x.vecs[v].ready > 0
      && x.vecs[v].mm < |x.ns| && x.vecs[v].iter < x.ns[x.vecs[v].mm]
    case Give(v) => v < 2 && x.vecs[v].busy
    case Leave(v) =>
      && v < 2 && x.vecs[v].inside && !x.vecs[v].busy
      && x.vecs[v].mm < |x.ns| && x.vecs[v].iter == x.ns[x.vecs[v].mm]
  }

  function One(b: bool): nat {
    if b then 1 else 0
  }

  function After(x: Core, step: Step): Core
    requires Enabled(x, step)
  {
    match step
    case Begin => x.(phase := Writing)
    case Post =>
      var vecs := [x.vecs[0].(ready := x.vecs[0].ready + 1), x.vecs[1].(ready := x.vecs[1].ready + 1)];
      if (x.iter + 1) % MAX_HW_SYNC_COUNTER == 0 then x.(phase := Throttled, vecs := vecs)
      else x.(phase := Idle, iter := x.iter + 1, vecs := vecs)
    case Wait =>
      x.(phase := Idle, iter := x.iter + 1,
         vecs := [x.vecs[0].(credit := x.vecs[0].credit - 1), x.vecs[1].(credit := x.vecs[1].credit - 1)])
    case Advance => x.(mm := x.mm + 1, iter := 0)
    case Enter(v) => x.(vecs := x.vecs[v := x.vecs[v].(inside := true)])
    case Take(v) => x.(vecs := x.vecs[v := x.vecs[v].(busy := true, ready := x.vecs[v].ready - 1)])
    case Give(v) =>
      var y := x.vecs[v];
      x.(vecs := x.vecs[v := y.(busy := false, iter := y.iter + 1,
                                credit := y.credit + One((y.iter + 1) % MAX_HW_SYNC_COUNTER == 1))])
    case Leave(v) => x.(vecs := x.vecs[v := x.vecs[v].(mm := x.vecs[v].mm + 1, inside := false, iter := 0)])
  }

  ghost predicate CanStep(s: State, c: nat, step: Step) {
    c < |s| && Enabled(s[c], step) && (step.Enter? ==> AllArrived(s, s[c].vecs[step.v].mm))
  }

  ghost predicate Next(s: State, s': State) {
    exists c: nat, step :: CanStep(s, c, step) && s' == s[c := After(s[c], step)]
  }

  ghost predicate Fresh(x: Core) {
    && x.mm == 0 && x.iter == 0 && x.phase.Idle?
    && x.vecs == [Vec(0, false, 0, false, 0, 0), Vec(0, false, 0, false, 0, 0)]
  }

  // Every core goes through the same number of matmuls, each with its own number of tiles.
  ghost predicate Init(s: State) {
    forall c :: 0 <= c < |s| ==> Fresh(s[c]) && |s[c].ns| == |s[0].ns|
  }

  ghost predicate Run(t: seq<State>) {
    && t != [] && Init(t[0])
    && forall i :: 0 <= i < |t| - 1 ==> Next(t[i], t[i + 1])
  }

  // Tiles of the first k matmuls; signals a vector core sends back in them; waits of the cube in them.
  function Tiles(ns: seq<nat>, k: nat): nat
    requires k <= |ns|
  {
    if k == 0 then 0 else Tiles(ns, k - 1) + ns[k - 1]
  }

  function Backs(ns: seq<nat>, k: nat): nat
    requires k <= |ns|
  {
    if k == 0 then 0 else Backs(ns, k - 1) + (ns[k - 1] + 4) / 5
  }

  function Waits(ns: seq<nat>, k: nat): nat
    requires k <= |ns|
  {
    if k == 0 then 0 else Waits(ns, k - 1) + ns[k - 1] / 5
  }

  // Matmuls before the k-th whose number of tiles is no multiple of five: each leaves one signal over.
  function Leftover(ns: seq<nat>, k: nat): nat
    requires k <= |ns|
  {
    if k == 0 then 0 else Leftover(ns, k - 1) + One(ns[k - 1] % 5 != 0)
  }

  lemma {:induction false} LeftoverIsSurplus(ns: seq<nat>, k: nat)
    requires k <= |ns|
    ensures Backs(ns, k) == Waits(ns, k) + Leftover(ns, k)
  {
    if k > 0 {
      LeftoverIsSurplus(ns, k - 1);
    }
  }

  lemma {:induction false} Grows(ns: seq<nat>, j: nat, k: nat)
    requires j <= k <= |ns|
    ensures Tiles(ns, j) <= Tiles(ns, k) && Backs(ns, j) <= Backs(ns, k)
    decreases k
  {
    if j < k {
      Grows(ns, j, k - 1);
    }
  }

  lemma TilesPast(ns: seq<nat>, k: nat, j: nat)
    requires k < |ns| && j <= |ns|
    ensures k < j ==> Tiles(ns, j) >= Tiles(ns, k) + ns[k]
  {
    if k < j {
      Grows(ns, k + 1, j);
      assert Tiles(ns, k + 1) == Tiles(ns, k) + ns[k];
    }
  }

  // ----- the invariant of one core -----

  ghost predicate CubeOk(x: Core) {
    && x.mm <= |x.ns|
    && (if x.mm == |x.ns| then x.iter == 0 && x.phase.Idle?
        else x.iter <= x.ns[x.mm] && (!x.phase.Idle? ==> x.iter < x.ns[x.mm]))
    && (x.phase.Throttled? ==> x.iter % 5 == 4)
  }

  ghost predicate VecOk(x: Core, y: Vec) {
    && y.mm <= |x.ns|
    && (if y.mm == |x.ns| || !y.inside then !y.inside && y.iter == 0 && !y.busy
        else y.iter <= x.ns[y.mm] && (y.busy ==> y.iter < x.ns[y.mm]))
  }

  function Posted(x: Core): nat
    requires x.mm <= |x.ns|
  {
    Tiles(x.ns, x.mm) + x.iter + One(x.phase.Throttled?)
  }

  ghost predicate Counters(x: Core, y: Vec)
    requires x.mm <= |x.ns| && y.mm <= |x.ns|
  {
    && y.ready == Posted(x) - (Tiles(x.ns, y.mm) + y.iter + One(y.busy)) >= 0
    && y.credit == Backs(x.ns, y.mm) + (y.iter + 4) / 5 - (Waits(x.ns, x.mm) + x.iter / 5) >= 0
  }

  // A matmul that the cube has begun was entered by the vector core; a cube core that is ahead of a
  // vector core has not begun, and has nothing in the matmuls it went past.
  ghost predicate InStep(x: Core, y: Vec)
    requires x.mm <= |x.ns| && y.mm <= |x.ns|
  {
    && (x.iter > 0 || !x.phase.Idle? ==> Started(y, x.mm))
    && (y.mm < x.mm ==> Tiles(x.ns, x.mm) == Tiles(x.ns, y.mm + 1) && Waits(x.ns, x.mm) == Waits(x.ns, y.mm + 1))
  }

  ghost predicate VecInv(x: Core, y: Vec)
    requires x.mm <= |x.ns|
  {
    VecOk(x, y) && Counters(x, y) && InStep(x, y)
  }

  ghost predicate CoreInv(x: Core) {
    Shaped(x) && CubeOk(x) && VecInv(x, x.vecs[0]) && VecInv(x, x.vecs[1])
  }

  // A vector core changes nothing that the cube or the other vector core relies on.
  lemma VecStep(x: Core, step: Step)
    requires CoreInv(x) && Enabled(x, step) && (step.Enter? || step.Take? || step.Give? || step.Leave?)
    ensures CoreInv(After(x, step))
  {
    var x' := After(x, step);
    assert x'.ns == x.ns && CubeOk(x');
    OwnStep(x, step);
    OtherVec(x, x', x.vecs[1 - step.v]);
  }

  lemma OtherVec(x: Core, x': Core, y: Vec)
    requires x'.ns == x.ns && x'.mm == x.mm && x'.iter == x.iter && x'.phase == x.phase
    requires x.mm <= |x.ns| && VecInv(x, y)
    ensures VecInv(x', y)
  {
  }

  // The own counters of a vector core after one of its steps.
  lemma OwnStep(x: Core, step: Step)
    requires CoreInv(x) && Enabled(x, step) && (step.Enter? || step.Take? || step.Give? || step.Leave?)
    ensures VecInv(After(x, step), After(x, step).vecs[step.v])
  {
    match step
    case Enter(v) => OwnEnter(x, v);
    case Take(v) => OwnTake(x, v);
    case Give(v) => OwnGive(x, v);
    case Leave(v) => OwnLeave(x, v);
  }

  lemma OwnEnter(x: Core, v: nat)
    requires CoreInv(x) && Enabled(x, Enter(v))
    ensures VecInv(After(x, Enter(v)), After(x, Enter(v)).vecs[v])
  {
    EnterKeeps(x, x.vecs[v]);
    SameCube(x, After(x, Enter(v)), After(x, Enter(v)).vecs[v]);
  }

  lemma OwnTake(x: Core, v: nat)
    requires CoreInv(x) && Enabled(x, Take(v))
    ensures VecInv(After(x, Take(v)), After(x, Take(v)).vecs[v])
  {
    TakeKeeps(x, x.vecs[v]);
    SameCube(x, After(x, Take(v)), After(x, Take(v)).vecs[v]);
  }

  lemma OwnGive(x: Core, v: nat)
    requires CoreInv(x) && Enabled(x, Give(v))
    ensures VecInv(After(x, Give(v)), After(x, Give(v)).vecs[v])
  {
    GiveKeeps(x, x.vecs[v]);
    SameCube(x, After(x, Give(v)), After(x, Give(v)).vecs[v]);
  }

  lemma OwnLeave(x: Core, v: nat)
    requires CoreInv(x) && Enabled(x, Leave(v))
    ensures VecInv(After(x, Leave(v)), After(x, Leave(v)).vecs[v])
  {
    LeaveKeeps(x, x.vecs[v]);
    SameCube(x, After(x, Leave(v)), After(x, Leave(v)).vecs[v]);
  }

  lemma SameCube(x: Core, x': Core, y: Vec)
    requires x'.ns == x.ns && x'.mm == x.mm && x'.iter == x.iter && x'.phase == x.phase && x.mm <= |x.ns|
    ensures VecInv(x, y) ==> VecInv(x', y)
  {
  }

  lemma EnterKeeps(x: Core, y: Vec)
    requires x.mm <= |x.ns| && VecInv(x, y) && !y.inside && y.mm < |x.ns|
    ensures VecInv(x, y.(inside := true))
  {
  }

  lemma TakeKeeps(x: Core, y: Vec)
    requires x.mm <= |x.ns| && VecInv(x, y)
    requires y.inside && !y.busy && y.ready > 0 && y.mm < |x.ns| && y.iter < x.ns[y.mm]
    ensures VecInv(x, y.(busy := true, ready := y.ready - 1))
  {
  }

  lemma GiveKeeps(x: Core, y: Vec)
    requires x.mm <= |x.ns| && VecInv(x, y) && y.busy
    ensures VecInv(x, y.(busy := false, iter := y.iter + 1, credit := y.credit + One((y.iter + 1) % 5 == 1)))
  {
    FifthBack(y.iter);
  }

  lemma LeaveKeeps(x: Core, y: Vec)
    requires CubeOk(x) && VecInv(x, y) && y.inside && !y.busy && y.mm < |x.ns| && y.iter == x.ns[y.mm]
    ensures VecInv(x, y.(mm := y.mm + 1, inside := false, iter := 0))
  {
    LeavesInStep(x, y);
    StillStarted(x, y);
    assert Tiles(x.ns, y.mm + 1) == Tiles(x.ns, y.mm) + x.ns[y.mm];
    assert Backs(x.ns, y.mm + 1) == Backs(x.ns, y.mm) + (x.ns[y.mm] + 4) / 5;
  }

  // If the cube has begun matmul mm, a vector core that leaves a matmul leaves that one or a later one.
  lemma StillStarted(x: Core, y: Vec)
    requires x.mm <= |x.ns| && y.mm <= |x.ns| && InStep(x, y)
    ensures x.iter > 0 || !x.phase.Idle? ==> y.mm + 1 > x.mm
  {
  }

  lemma FifthBack(i: nat)
    ensures (i + 1 + 4) / 5 == (i + 4) / 5 + One((i + 1) % 5 == 1)
  {
  }

  lemma FifthWait(i: nat)
    ensures (i + 1) / 5 == i / 5 + One((i + 1) % 5 == 0)
    ensures (i + 1) % 5 == 0 <==> i % 5 == 4
  {
  }

  // A vector core that has used up a matmul leaves none of its tiles behind.
  lemma LeavesInStep(x: Core, y: Vec)
    requires x.mm <= |x.ns| && VecInv(x, y) && y.mm < |x.ns| && y.iter == x.ns[y.mm] && !y.busy
    requires CubeOk(x)
    ensures y.mm + 1 < x.mm ==> Tiles(x.ns, x.mm) == Tiles(x.ns, y.mm + 2) && Waits(x.ns, x.mm) == Waits(x.ns, y.mm + 2)
  {
    if y.mm + 1 < x.mm {
      Grows(x.ns, y.mm + 2, x.mm);
      assert Tiles(x.ns, y.mm + 2) == Tiles(x.ns, y.mm + 1) + x.ns[y.mm + 1];
      assert Waits(x.ns, y.mm + 2) == Waits(x.ns, y.mm + 1) + x.ns[y.mm + 1] / 5;
    }
  }

  lemma CubeStep(x: Core, step: Step)
    requires CoreInv(x) && Enabled(x, step) && !(step.Enter? || step.Take? || step.Give? || step.Leave?)
    ensures CoreInv(After(x, step))
  {
    FifthWait(x.iter);
    var x' := After(x, step);
    CubeStepVec(x, step, 0);
    CubeStepVec(x, step, 1);
    assert CubeOk(x');
  }

  lemma CubeStepVec(x: Core, step: Step, v: nat)
    requires CoreInv(x) && Enabled(x, step) && !(step.Enter? || step.Take? || step.Give? || step.Leave?) && v < 2
    ensures After(x, step).ns == x.ns && After(x, step).mm <= |x.ns| && |After(x, step).vecs| == 2
    ensures VecInv(After(x, step), After(x, step).vecs[v])
  {
    match step
    case Begin => BeginVec(x, v);
    case Post => PostVec(x, v);
    case Wait => WaitVec(x, v);
    case Advance => AdvanceVec(x, v);
  }

  lemma BeginVec(x: Core, v: nat)
    requires CoreInv(x) && Enabled(x, Begin) && v < 2
    ensures VecInv(After(x, Begin), x.vecs[v])
  {
    var y := x.vecs[v];
    assert Counters(x, y);
    assert InStep(x.(phase := Writing), y);
  }

  lemma PostVec(x: Core, v: nat)
    requires CubeOk(x) && Enabled(x, Post) && v < 2 && VecInv(x, x.vecs[v])
    ensures VecInv(After(x, Post), After(x, Post).vecs[v])
  {
    FifthWait(x.iter);
    assert After(x, Post).vecs[v] == x.vecs[v].(ready := x.vecs[v].ready + 1);
    PostKeeps(x, x.vecs[v], After(x, Post));
  }

  lemma PostKeeps(x: Core, y: Vec, x': Core)
    requires x.mm <= |x.ns| && VecInv(x, y) && x.phase.Writing?
    requires x'.ns == x.ns && x'.mm == x.mm
    requires if x.iter % 5 == 4 then x'.phase.Throttled? && x'.iter == x.iter
             else x'.phase.Idle? && x'.iter == x.iter + 1
    ensures VecInv(x', y.(ready := y.ready + 1))
  {
    FifthWait(x.iter);
  }

  lemma WaitVec(x: Core, v: nat)
    requires CubeOk(x) && Enabled(x, Wait) && v < 2 && VecInv(x, x.vecs[v])
    ensures VecInv(After(x, Wait), After(x, Wait).vecs[v])
  {
    WaitKeeps(x, x.vecs[v], After(x, Wait));
  }

  lemma WaitKeeps(x: Core, y: Vec, x': Core)
    requires x.mm <= |x.ns| && VecInv(x, y) && x.phase.Throttled? && x.iter % 5 == 4 && y.credit > 0
    requires x'.ns == x.ns && x'.mm == x.mm && x'.phase.Idle? && x'.iter == x.iter + 1
    ensures VecInv(x', y.(credit := y.credit - 1))
  {
    FifthWait(x.iter);
  }

  lemma AdvanceVec(x: Core, v: nat)
    requires CoreInv(x) && Enabled(x, Advance) && v < 2
    ensures After(x, Advance).mm <= |x.ns| && VecInv(After(x, Advance), x.vecs[v])
  {
    AdvanceKeeps(x, x.vecs[v]);
  }

  lemma AdvanceKeeps(x: Core, y: Vec)
    requires CubeOk(x) && VecInv(x, y) && x.phase.Idle? && x.mm < |x.ns| && x.iter == x.ns[x.mm]
    ensures VecInv(x.(mm := x.mm + 1, iter := 0), y)
  {
    assert Tiles(x.ns, x.mm + 1) == Tiles(x.ns, x.mm) + x.ns[x.mm];
    assert Waits(x.ns, x.mm + 1) == Waits(x.ns, x.mm) + x.ns[x.mm] / 5;
  }

  lemma StepKeepsCore(x: Core, step: Step)
    requires CoreInv(x) && Enabled(x, step)
    ensures CoreInv(After(x, step)) && After(x, step).ns == x.ns
  {
    if step.Enter? || step.Take? || step.Give? || step.Leave? {
      VecStep(x, step);
    } else {
      CubeStep(x, step);
    }
  }

  // ----- all cores -----

  // A vector core inside a matmul passed its barrier: every vector core has arrived there.
  ghost predicate Barrier(s: State) {
    forall c :: 0 <= c < |s| ==> BarrierAt(s, s[c])
  }

  ghost predicate BarrierAt(s: State, x: Core) {
    && |x.vecs| == 2
    && (x.vecs[0].inside ==> AllArrived(s, x.vecs[0].mm))
    && (x.vecs[1].inside ==> AllArrived(s, x.vecs[1].mm))
  }

  ghost predicate Inv(s: State) {
    && (forall c :: 0 <= c < |s| ==> CoreInv(s[c]) && |s[c].ns| == |s[0].ns|)
    && Barrier(s)
  }

  lemma StepKeepsArrived(s: State, c: nat, step: Step, mm: nat)
    requires CanStep(s, c, step) && AllArrived(s, mm)
    ensures AllArrived(s[c := After(s[c], step)], mm)
  {
    assert Arrived(s[c], mm);
    ArrivedStays(s[c], step, mm);
  }

  lemma ArrivedStays(x: Core, step: Step, mm: nat)
    requires Enabled(x, step) && Arrived(x, mm)
    ensures Arrived(After(x, step), mm)
  {
  }

  // A vector core inside a matmul after a step was inside it before, or has just entered it.
  lemma InsideBefore(x: Core, step: Step, v: nat)
    requires Enabled(x, step) && v < 2 && |After(x, step).vecs| == 2
    requires After(x, step).vecs[v].inside
    ensures After(x, step).vecs[v].mm == x.vecs[v].mm
    ensures x.vecs[v].inside || step == Enter(v)
  {
  }

  lemma StepKeepsBarrier(s: State, c: nat, step: Step)
    requires Inv(s) && CanStep(s, c, step)
    ensures Barrier(s[c := After(s[c], step)])
  {
    var s' := s[c := After(s[c], step)];
    StepKeepsCore(s[c], step);
    forall d | 0 <= d < |s'|
      ensures BarrierAt(s', s'[d])
    {
      assert BarrierAt(s, s[d]);
      if s'[d].vecs[0].inside {
        BarrierOf(s, c, step, d, 0);
      }
      if s'[d].vecs[1].inside {
        BarrierOf(s, c, step, d, 1);
      }
    }
  }

  lemma BarrierOf(s: State, c: nat, step: Step, d: nat, v: nat)
    requires CanStep(s, c, step) && d < |s| && v < 2
    requires BarrierAt(s, s[d]) && |After(s[c], step).vecs| == 2
    requires s[c := After(s[c], step)][d].vecs[v].inside
    ensures AllArrived(s[c := After(s[c], step)], s[c := After(s[c], step)][d].vecs[v].mm)
  {
    if d == c {
      InsideBefore(s[c], step, v);
    }
    StepKeepsArrived(s, c, step, s[d].vecs[v].mm);
  }

  lemma StepKeepsInv(s: State, s': State)
    requires Inv(s) && Next(s, s')
    ensures Inv(s') && |s'| == |s| && forall c :: 0 <= c < |s| ==> s'[c].ns == s[c].ns
  {
    var c: nat, step :| CanStep(s, c, step) && s' == s[c := After(s[c], step)];
    StepKeepsCores(s, s', c, step);
    StepKeepsBarrier(s, c, step);
  }

  lemma StepKeepsCores(s: State, s': State, c: nat, step: Step)
    requires c < |s| && Enabled(s[c], step) && s' == s[c := After(s[c], step)]
    requires forall d :: 0 <= d < |s| ==> CoreInv(s[d])
    ensures forall d :: 0 <= d < |s'| ==> CoreInv(s'[d]) && s'[d].ns == s[d].ns
  {
    StepKeepsCore(s[c], step);
    forall d | 0 <= d < |s'|
      ensures CoreInv(s'[d]) && s'[d].ns == s[d].ns
    {
      assert d != c ==> s'[d] == s[d];
    }
  }

  lemma InitInv(s: State)
    requires Init(s)
    ensures Inv(s)
  {
  }

  lemma {:induction false} RunKeepsInv(t: seq<State>, i: nat)
    requires Run(t) && i < |t|
    ensures Inv(t[i]) && |t[i]| == |t[0]| && forall c :: 0 <= c < |t[0]| ==> t[i][c].ns == t[0][c].ns
  {
    if i == 0 {
      InitInv(t[0]);
    } else {
      RunKeepsInv(t, i - 1);
      assert Next(t[i - 1], t[i - 1 + 1]);
      StepKeepsInv(t[i - 1], t[i]);
    }
  }

  // ----- what holds in every reachable state -----

  // The tile a vector core works on has been written by its cube core.
  predicate TileWritten(x: Core, mm: nat, iter: nat) {
    x.mm > mm || (x.mm == mm && iter < x.iter + One(x.phase.Throttled?))
  }

  lemma NeverReadBeforeWritten(t: seq<State>, i: nat, c: nat, v: nat)
    requires Run(t) && i < |t| && c < |t[i]| && v < 2
    ensures Shaped(t[i][c])
    ensures var y := t[i][c].vecs[v]; y.busy ==> TileWritten(t[i][c], y.mm, y.iter)
  {
    RunKeepsInv(t, i);
    var x := t[i][c];
    assert CoreInv(x);
    var y := x.vecs[v];
    if x.mm < |x.ns| {
      TilesPast(x.ns, x.mm, y.mm);
    }
  }

  // While a cube core writes a tile, no vector core of any core is in an earlier matmul, whose tiles
  // share the buffer, and its own vector cores are at most at that tile, and not working on it.
  lemma NeverOverwrittenTooEarly(t: seq<State>, i: nat, c: nat, d: nat, v: nat)
    requires Run(t) && i < |t| && c < |t[i]| && d < |t[i]| && v < 2
    requires t[i][c].phase.Writing?
    ensures Shaped(t[i][d]) && t[i][d].vecs[v].mm >= t[i][c].mm
    ensures d == c && t[i][d].vecs[v].mm == t[i][c].mm && t[i][d].vecs[v].busy ==> t[i][d].vecs[v].iter < t[i][c].iter
  {
    RunKeepsInv(t, i);
    var x := t[i][c];
    assert CoreInv(x) && CoreInv(t[i][d]) && BarrierAt(t[i], x);
    WriterIsInStep(x);
    assert AllArrived(t[i], x.mm);
    assert Arrived(t[i][d], x.mm);
  }

  // While a cube core writes, its vector cores are inside the same matmul.
  lemma WriterIsInStep(x: Core)
    requires CoreInv(x) && x.phase.Writing?
    ensures x.vecs[0].mm == x.mm && x.vecs[0].inside && x.vecs[1].mm == x.mm && x.vecs[1].inside
  {
    NotAhead(x, x.vecs[0]);
    NotAhead(x, x.vecs[1]);
  }

  // A vector core cannot be past a matmul that its cube core has not finished.
  lemma NotAhead(x: Core, y: Vec)
    requires CubeOk(x) && VecInv(x, y) && x.mm < |x.ns| && x.iter + One(x.phase.Throttled?) < x.ns[x.mm]
    ensures y.mm <= x.mm
  {
    TilesPast(x.ns, x.mm, y.mm);
  }

  // The signals a vector core has pending: at most 9, and 5 more for each earlier matmul that left one of
  // its own signals over.
  lemma PendingIsBounded(t: seq<State>, i: nat, c: nat, v: nat)
    requires Run(t) && i < |t| && c < |t[i]| && v < 2
    ensures Shaped(t[i][c]) && t[i][c].vecs[v].mm <= |t[i][c].ns|
    ensures 0 <= t[i][c].vecs[v].ready <= 9 + 5 * Leftover(t[i][c].ns, t[i][c].vecs[v].mm)
  {
    RunKeepsInv(t, i);
    assert CoreInv(t[i][c]);
    PendingOfCore(t[i][c], t[i][c].vecs[v]);
  }

  lemma PendingOfCore(x: Core, y: Vec)
    requires CubeOk(x) && VecInv(x, y)
    ensures y.ready <= 9 + 5 * Leftover(x.ns, y.mm)
  {
    LeftoverIsSurplus(x.ns, y.mm);
    if x.mm < |x.ns| {
      TilesPast(x.ns, x.mm, y.mm);
    }
    if y.mm < x.mm {
      assert Tiles(x.ns, y.mm + 1) == Tiles(x.ns, y.mm) + x.ns[y.mm];
      assert Waits(x.ns, y.mm + 1) == Waits(x.ns, y.mm) + x.ns[y.mm] / 5;
    }
  }

  // The two matmuls of the kernel: 9 signals at most in the first, 14 in the second.
  lemma PendingInKernel(t: seq<State>, i: nat, c: nat, v: nat)
    requires Run(t) && i < |t| && c < |t[i]| && v < 2 && |t[i][c].ns| == 2
    ensures Shaped(t[i][c])
    ensures t[i][c].vecs[v].mm == 0 ==> t[i][c].vecs[v].ready <= 9
    ensures t[i][c].vecs[v].mm == 1 ==> t[i][c].vecs[v].ready <= 14
  {
    PendingIsBounded(t, i, c, v);
    var ns := t[i][c].ns;
    assert Leftover(ns, 0) == 0;
    assert Leftover(ns, 1) <= 1;
  }

  // ----- no deadlock -----

  ghost predicate Finished(s: State) {
    forall c :: 0 <= c < |s| ==> Done(s[c])
  }

  ghost predicate Done(x: Core) {
    x.mm == |x.ns| && |x.vecs| == 2 && x.vecs[0].mm == |x.ns| && x.vecs[1].mm == |x.ns|
  }

  // No step of this core is possible, apart from entering a matmul.
  ghost predicate Stuck(x: Core) {
    forall step :: Enabled(x, step) ==> step.Enter?
  }

  // A throttled cube core whose vector cores are stuck has its signals back.
  lemma ThrottledHasCredit(x: Core, v: nat)
    requires CoreInv(x) && Stuck(x) && x.phase.Throttled? && v < 2
    ensures x.vecs[v].credit > 0
  {
    var y := x.vecs[v];
    assert !Enabled(x, Take(v)) && !Enabled(x, Give(v)) && !Enabled(x, Leave(v));
    LeftoverIsSurplus(x.ns, x.mm);
    assert Tiles(x.ns, x.mm + 1) == Tiles(x.ns, x.mm) + x.ns[x.mm];
    assert Backs(x.ns, x.mm + 1) == Backs(x.ns, x.mm) + (x.ns[x.mm] + 4) / 5;
    if y.mm > x.mm {
      Grows(x.ns, x.mm + 1, y.mm);
    } else {
      assert y.iter == x.iter + 1;
    }
  }

  // A stuck core: the cube is through, or waits for a vector core to enter its matmul.
  lemma StuckCube(x: Core)
    requires CoreInv(x) && Stuck(x)
    ensures x.phase.Idle? && x.iter == 0
    ensures x.mm < |x.ns| ==> !BothStarted(x)
  {
    assert !Enabled(x, Begin) && !Enabled(x, Post) && !Enabled(x, Wait) && !Enabled(x, Advance);
    if x.phase.Throttled? {
      ThrottledHasCredit(x, 0);
      ThrottledHasCredit(x, 1);
    }
  }

  // A vector core inside a matmul of a stuck core has tiles left there, but none is posted.
  lemma StuckWaits(x: Core, v: nat)
    requires CoreInv(x) && Stuck(x) && v < 2 && x.vecs[v].inside
    ensures x.vecs[v].mm < |x.ns| && x.vecs[v].iter < x.ns[x.vecs[v].mm] && x.vecs[v].ready == 0 && !x.vecs[v].busy
  {
    assert !Enabled(x, Take(v)) && !Enabled(x, Give(v)) && !Enabled(x, Leave(v));
  }

  // It is at the cube's matmul, and the other one is not: the cube is not ahead, as it has no tile for it; and
  // behind it would have its start signals, as all vector cores have arrived at the matmul.
  lemma StuckInside(x: Core, v: nat)
    requires CoreInv(x) && Stuck(x) && v < 2 && x.vecs[v].inside && Arrived(x, x.vecs[v].mm)
    ensures x.vecs[v].mm == x.mm && !Started(x.vecs[1 - v], x.mm)
  {
    StuckCube(x);
    StuckWaits(x, v);
    TilesPast(x.ns, x.vecs[v].mm, x.mm);
  }

  // The vector core that is least far.
  lemma Hindmost(s: State, n: nat) returns (c: nat, v: nat)
    requires 0 < n <= |s| && forall i :: 0 <= i < n ==> |s[i].vecs| == 2
    ensures c < n && v < 2
    ensures forall i, w :: 0 <= i < n && 0 <= w < 2 ==> s[c].vecs[v].mm <= s[i].vecs[w].mm
  {
    c := 0;
    v := if s[0].vecs[0].mm <= s[0].vecs[1].mm then 0 else 1;
    for k := 1 to n
      invariant c < k && v < 2
      invariant forall i, w :: 0 <= i < k && 0 <= w < 2 ==> s[c].vecs[v].mm <= s[i].vecs[w].mm
    {
      if s[k].vecs[0].mm < s[c].vecs[v].mm {
        c, v := k, 0;
      }
      if s[k].vecs[1].mm < s[c].vecs[v].mm {
        c, v := k, 1;
      }
    }
  }

  // In every reachable state that is not the end, some core can go on.
  lemma NeverStuck(t: seq<State>, i: nat)
    requires Run(t) && i < |t| && !Finished(t[i])
    ensures exists s' :: Next(t[i], s')
  {
    RunKeepsInv(t, i);
    var s := t[i];
    if c :| 0 <= c < |s| && !Stuck(s[c]) {
      var step :| Enabled(s[c], step) && !step.Enter?;
      assert CanStep(s, c, step);
      assert Next(s, s[c := After(s[c], step)]);
    } else {
      var c, v := Hindmost(s, |s|);
      var d, w := Enterable(s, c, v);
      assert CanStep(s, d, Enter(w));
      assert Next(s, s[d := After(s[d], Enter(w))]);
    }
  }

  // When all cores are stuck, a vector core can pass the barrier.
  lemma Enterable(s: State, c: nat, v: nat) returns (d: nat, w: nat)
    requires Inv(s) && !Finished(s) && c < |s| && v < 2 && forall i :: 0 <= i < |s| ==> Stuck(s[i])
    requires forall i, u :: 0 <= i < |s| && 0 <= u < 2 ==> s[c].vecs[v].mm <= s[i].vecs[u].mm
    ensures d < |s| && w < 2 && CanStep(s, d, Enter(w))
  {
    var x := s[c];
    assert CoreInv(x) && BarrierAt(s, x);
    d, w := c, v;
    if x.vecs[v].inside {
      w := 1 - v;
      assert Arrived(x, x.vecs[v].mm);
      StuckInside(x, v);
      assert x.vecs[w].mm == x.mm;
    } else if x.vecs[v].mm == |x.ns| {
      AllThrough(s, c, v);
    } else {
      forall i | 0 <= i < |s|
        ensures Arrived(s[i], x.vecs[v].mm)
      {
        assert CoreInv(s[i]);
      }
    }
  }

  // When the last vector core is through and all are stuck, everything is finished.
  lemma AllThrough(s: State, c: nat, v: nat)
    requires Inv(s) && c < |s| && v < 2 && forall i :: 0 <= i < |s| ==> Stuck(s[i])
    requires forall i, u :: 0 <= i < |s| && 0 <= u < 2 ==> s[c].vecs[v].mm <= s[i].vecs[u].mm
    requires s[c].vecs[v].mm == |s[c].ns|
    ensures Finished(s)
  {
    forall i | 0 <= i < |s|
      ensures Done(s[i])
    {
      assert CoreInv(s[i]);
      assert s[i].vecs[0].mm == s[i].vecs[1].mm == |s[i].ns|;
      StuckCube(s[i]);
    }
  }

  // At the end no tile signal is pending, and a vector core has exactly the leftover signals out.
  lemma EndsDrained(t: seq<State>, i: nat, c: nat, v: nat)
    requires Run(t) && i < |t| && Finished(t[i]) && c < |t[i]| && v < 2
    ensures Shaped(t[i][c])
    ensures t[i][c].vecs[v].ready == 0
    ensures t[i][c].vecs[v].credit == Leftover(t[i][c].ns, |t[i][c].ns|)
  {
    RunKeepsInv(t, i);
    assert CoreInv(t[i][c]) && Done(t[i][c]);
    LeftoverIsSurplus(t[i][c].ns, |t[i][c].ns|);
  }

  // ----- every run comes to an end -----

  function PhaseMoves(p: Phase): nat {
    match p case Idle => 0 case Writing => 1 case Throttled => 2
  }

  function VecMoves(ns: seq<nat>, y: Vec): nat
    requires y.mm <= |ns|
  {
    2 * (Tiles(ns, y.mm) + y.iter) + One(y.busy) + 2 * y.mm + One(y.inside)
  }

  function CubeMoves(x: Core): nat
    requires x.mm <= |x.ns|
  {
    2 * (Tiles(x.ns, x.mm) + x.iter) + PhaseMoves(x.phase) + Waits(x.ns, x.mm) + x.iter / 5 + x.mm
  }

  // The steps a core has made.
  function CoreMoves(x: Core): nat {
    if |x.vecs| == 2 && x.mm <= |x.ns| && x.vecs[0].mm <= |x.ns| && x.vecs[1].mm <= |x.ns|
    then CubeMoves(x) + VecMoves(x.ns, x.vecs[0]) + VecMoves(x.ns, x.vecs[1]) else 0
  }

  // The steps a core makes in all.
  function CoreTotal(ns: seq<nat>): nat {
    6 * Tiles(ns, |ns|) + Waits(ns, |ns|) + 5 * |ns|
  }

  lemma StepIsOneMove(x: Core, step: Step)
    requires CoreInv(x) && Enabled(x, step) && CoreInv(After(x, step))
    ensures CoreMoves(After(x, step)) == CoreMoves(x) + 1
  {
    if step.Enter? || step.Take? || step.Give? || step.Leave? {
      VecMove(x, step);
    } else {
      CubeMove(x, step);
    }
  }

  lemma VecMove(x: Core, step: Step)
    requires Enabled(x, step) && (step.Enter? || step.Take? || step.Give? || step.Leave?)
    requires x.mm <= |x.ns| && x.vecs[0].mm <= |x.ns| && x.vecs[1].mm <= |x.ns|
    ensures var x' := After(x, step);
            && x'.ns == x.ns && CubeMoves(x') == CubeMoves(x) && |x'.vecs| == 2
            && x'.vecs[0].mm <= |x.ns| && x'.vecs[1].mm <= |x.ns|
            && VecMoves(x.ns, x'.vecs[0]) + VecMoves(x.ns, x'.vecs[1])
            == VecMoves(x.ns, x.vecs[0]) + VecMoves(x.ns, x.vecs[1]) + 1
  {
    if step.Leave? {
      assert Tiles(x.ns, x.vecs[step.v].mm + 1) == Tiles(x.ns, x.vecs[step.v].mm) + x.ns[x.vecs[step.v].mm];
    }
  }

  lemma CubeMove(x: Core, step: Step)
    requires CubeOk(x) && Enabled(x, step) && !(step.Enter? || step.Take? || step.Give? || step.Leave?)
    requires x.vecs[0].mm <= |x.ns| && x.vecs[1].mm <= |x.ns|
    ensures var x' := After(x, step);
            && x'.ns == x.ns && x'.mm <= |x.ns| && CubeMoves(x') == CubeMoves(x) + 1 && |x'.vecs| == 2
            && x'.vecs[0].mm <= |x.ns| && x'.vecs[1].mm <= |x.ns|
            && VecMoves(x.ns, x'.vecs[0]) == VecMoves(x.ns, x.vecs[0])
            && VecMoves(x.ns, x'.vecs[1]) == VecMoves(x.ns, x.vecs[1])
  {
    FifthWait(x.iter);
    if step.Advance? {
      assert Tiles(x.ns, x.mm + 1) == Tiles(x.ns, x.mm) + x.ns[x.mm];
      assert Waits(x.ns, x.mm + 1) == Waits(x.ns, x.mm) + x.ns[x.mm] / 5;
    }
  }

  lemma {:induction false} WaitsGrow(ns: seq<nat>, j: nat, k: nat)
    requires j <= k <= |ns|
    ensures Waits(ns, j) <= Waits(ns, k)
    decreases k
  {
    if j < k {
      WaitsGrow(ns, j, k - 1);
    }
  }

  lemma VecBelowTotal(ns: seq<nat>, x: Core, y: Vec)
    requires VecOk(x, y) && ns == x.ns
    ensures VecMoves(ns, y) <= 2 * Tiles(ns, |ns|) + 2 * |ns|
    ensures y.mm == |ns| ==> VecMoves(ns, y) == 2 * Tiles(ns, |ns|) + 2 * |ns|
  {
    if y.mm < |ns| {
      Grows(ns, y.mm + 1, |ns|);
      assert Tiles(ns, y.mm + 1) == Tiles(ns, y.mm) + ns[y.mm];
    }
  }

  lemma CubeBelowTotal(x: Core)
    requires CubeOk(x)
    ensures CubeMoves(x)
         <= 2 * Tiles(x.ns, |x.ns|) + Waits(x.ns, |x.ns|) + |x.ns|
  {
    if x.mm < |x.ns| {
      Grows(x.ns, x.mm + 1, |x.ns|);
      WaitsGrow(x.ns, x.mm + 1, |x.ns|);
      assert Tiles(x.ns, x.mm + 1) == Tiles(x.ns, x.mm) + x.ns[x.mm];
      assert Waits(x.ns, x.mm + 1) == Waits(x.ns, x.mm) + x.ns[x.mm] / 5;
    }
  }

  lemma MovesBelowTotal(x: Core)
    requires CoreInv(x)
    ensures CoreMoves(x) <= CoreTotal(x.ns)
    ensures Done(x) ==> CoreMoves(x) == CoreTotal(x.ns)
  {
    CubeBelowTotal(x);
    VecBelowTotal(x.ns, x, x.vecs[0]);
    VecBelowTotal(x.ns, x, x.vecs[1]);
  }

  function Moves(s: State, n: nat): nat
    requires n <= |s|
  {
    if n == 0 then 0 else Moves(s, n - 1) + CoreMoves(s[n - 1])
  }

  function Total(s: State, n: nat): nat
    requires n <= |s|
  {
    if n == 0 then 0 else Total(s, n - 1) + CoreTotal(s[n - 1].ns)
  }

  lemma {:induction false} OneCoreMoves(s: State, s': State, c: nat, n: nat)
    requires n <= |s| == |s'| && c < |s| && s' == s[c := s'[c]]
    requires CoreMoves(s'[c]) == CoreMoves(s[c]) + 1
    ensures Moves(s', n) == Moves(s, n) + One(c < n)
  {
    if n > 0 {
      assert n - 1 != c ==> s'[n - 1] == s[n - 1];
      OneCoreMoves(s, s', c, n - 1);
    }
  }

  lemma {:induction false} SameTotal(s: State, s': State, n: nat)
    requires n <= |s| == |s'| && forall c :: 0 <= c < |s| ==> s'[c].ns == s[c].ns
    ensures Total(s', n) == Total(s, n)
  {
    if n > 0 {
      SameTotal(s, s', n - 1);
    }
  }

  lemma {:induction false} MovesBounded(s: State, n: nat)
    requires n <= |s| && forall c :: 0 <= c < |s| ==> CoreMoves(s[c]) <= CoreTotal(s[c].ns)
    ensures Moves(s, n) <= Total(s, n)
    ensures (forall c :: 0 <= c < |s| ==> CoreMoves(s[c]) == CoreTotal(s[c].ns)) ==> Moves(s, n) == Total(s, n)
  {
    if n > 0 {
      MovesBounded(s, n - 1);
    }
  }

  lemma {:induction false} NoMovesYet(s: State, n: nat)
    requires Init(s) && n <= |s| && Inv(s)
    ensures Moves(s, n) == 0
  {
    if n > 0 {
      NoMovesYet(s, n - 1);
    }
  }

  lemma OneMove(s: State, s': State)
    requires Inv(s) && Next(s, s') && Inv(s')
    ensures Moves(s', |s'|) == Moves(s, |s|) + 1
  {
    var c: nat, step :| CanStep(s, c, step) && s' == s[c := After(s[c], step)];
    assert s'[c] == After(s[c], step);
    StepIsOneMove(s[c], step);
    OneCoreMoves(s, s', c, |s|);
  }

  // No run is longer than the steps there are, and a finished one has made them all.
  lemma {:induction false} RunsAreBounded(t: seq<State>, i: nat)
    requires Run(t) && i < |t|
    ensures i <= Total(t[0], |t[0]|)
    ensures Finished(t[i]) ==> i == Total(t[0], |t[0]|)
  {
    MoveCount(t, i);
    RunKeepsInv(t, i);
    SameTotal(t[0], t[i], |t[0]|);
    forall c | 0 <= c < |t[i]|
      ensures CoreMoves(t[i][c]) <= CoreTotal(t[i][c].ns)
      ensures Finished(t[i]) ==> CoreMoves(t[i][c]) == CoreTotal(t[i][c].ns)
    {
      MovesBelowTotal(t[i][c]);
    }
    MovesBounded(t[i], |t[i]|);
  }

  lemma {:induction false} MoveCount(t: seq<State>, i: nat)
    requires Run(t) && i < |t|
    ensures Moves(t[i], |t[i]|) == i
  {
    if i == 0 {
      InitInv(t[0]);
      NoMovesYet(t[0], |t[0]|);
    } else {
      MoveCount(t, i - 1);
      StepOfRun(t, i);
      OneMove(t[i - 1], t[i]);
    }
  }

  lemma StepOfRun(t: seq<State>, i: nat)
    requires Run(t) && 0 < i < |t|
    ensures Inv(t[i - 1]) && Next(t[i - 1], t[i]) && Inv(t[i])
  {
    RunKeepsInv(t, i - 1);
    RunKeepsInv(t, i);
    assert Next(t[i - 1], t[i - 1 + 1]);
  }

  // ----- which tile an iteration is -----

  // The turns of a loop that starts at `first` and goes on by `stride` while it is below `limit`.
  function Turns(first: nat, stride: nat, limit: nat): nat {
    if first < limit then CeilDiv(limit - first, stride) else 0
  }

  lemma TurnsAre(first: nat, stride: nat, limit: nat, iter: nat)
    requires stride > 0
    ensures iter < Turns(first, stride, limit) <==> first + iter * stride < limit
  {
    MulOrder(0, iter, stride);
    if first < limit {
      CeilDivGalois(limit - first, stride, iter);
    }
  }

  // The cube cores that have tiles, as the host computes them: their stride.
  function CubeStride(tiles: nat, cores: nat): nat {
    Min(tiles, cores)
  }

  // A cube core beyond those returns at once; the others walk by their number.
  function CubeTurns(core: nat, tiles: nat, cores: nat): nat {
    if core >= CubeStride(tiles, cores) then 0 else Turns(core, CubeStride(tiles, cores), tiles)
  }

  // A vector core finds its cube core's number by halving its own, and walks by the number of all cores.
  function VecTurns(block: nat, tiles: nat, cores: nat): nat {
    Turns(block / 2, cores, tiles)
  }

  // A cube core and its vector cores make the same number of turns.
  lemma SameTurns(core: nat, sub: nat, tiles: nat, cores: nat)
    requires core < cores && sub < 2
    ensures VecTurns(2 * core + sub, tiles, cores) == CubeTurns(core, tiles, cores)
  {
    assert (2 * core + sub) / 2 == core;
    if core < tiles < cores {
      OneTurn(core, tiles, tiles);
      OneTurn(core, cores, tiles);
    }
  }

  lemma OneTurn(first: nat, stride: nat, limit: nat)
    requires first < limit <= stride
    ensures Turns(first, stride, limit) == 1
  {
    CeilDivUnique(limit - first, stride, 1);
  }

  // The tiles of every core in every matmul of a launch, given the number of tiles of each matmul.
  function TilesOfCore(core: nat, tiles: seq<nat>, cores: nat): (ns: seq<nat>)
    ensures |ns| == |tiles| && forall k :: 0 <= k < |ns| ==> ns[k] == CubeTurns(core, tiles[k], cores)
  {
    seq(|tiles|, k requires 0 <= k < |tiles| => CubeTurns(core, tiles[k], cores))
  }

  function Start(tiles: seq<nat>, cores: nat): State {
    seq(cores, c requires 0 <= c < cores =>
      Core(TilesOfCore(c, tiles, cores), 0, 0, Idle, [Vec(0, false, 0, false, 0, 0), Vec(0, false, 0, false, 0, 0)]))
  }

  // So a launch starts in a state of the machine above: the number of tiles that a core has in a matmul is that of
  // the loop of its cube core and that of the loops of its vector cores.
  lemma LaunchStarts(tiles: seq<nat>, cores: nat, c: nat, v: nat, k: nat)
    requires c < cores && v < 2 && k < |tiles|
    ensures Init(Start(tiles, cores)) && |Start(tiles, cores)[c].ns| == |tiles|
    ensures Start(tiles, cores)[c].ns[k] == CubeTurns(c, tiles[k], cores) == VecTurns(2 * c + v, tiles[k], cores)
  {
    SameTurns(c, v, tiles[k], cores);
  }

  // The tile of iteration `iter` on core `core`; both sides walk the tiles in direction 0.
  function TileOfIteration(core: nat, iter: nat, stride: nat, batches: nat, mLoop: nat, nLoop: nat, cnt: nat): Tile
    requires cnt > 0 && core + iter * stride < batches * (mLoop * nLoop)
  {
    TileOf(0, core + iter * stride, batches, mLoop, nLoop, cnt)
  }

  // In each of their turns a cube core and its vector cores, each by its own stride, are at the same tile.
  lemma SameTile(core: nat, sub: nat, iter: nat, cores: nat, batches: nat, mLoop: nat, nLoop: nat, cnt: nat)
    requires core < cores && sub < 2 && cnt > 0 && iter < CubeTurns(core, batches * (mLoop * nLoop), cores)
    ensures var tiles, block := batches * (mLoop * nLoop), (2 * core + sub) / 2;
            && block + iter * cores < tiles && core + iter * CubeStride(tiles, cores) < tiles
            && TileOfIteration(block, iter, cores, batches, mLoop, nLoop, cnt)
            == TileOfIteration(core, iter, CubeStride(tiles, cores), batches, mLoop, nLoop, cnt)
  {
    var tiles := batches * (mLoop * nLoop);
    SameTurns(core, sub, tiles, cores);
    TurnsAre(core, cores, tiles, iter);
    TurnsAre(core, CubeStride(tiles, cores), tiles, iter);
    if tiles < cores {
      OneTurn(core, tiles, tiles);
    }
  }

  // Every tile comes up on some cube core.
  lemma EveryTileComesUp(index: nat, tiles: nat, cores: nat) returns (core: nat, iter: nat)
    requires index < tiles && cores > 0
    ensures core < cores && iter < CubeTurns(core, tiles, cores) && core + iter * CubeStride(tiles, cores) == index
  {
    var stride := CubeStride(tiles, cores);
    DivModIs(index, stride);
    core, iter := index % stride, index / stride;
    TurnsAre(core, stride, tiles, iter);
  }

  // Different iterations and different cores never share a tile.
  lemma TilesDiffer(core: nat, iter: nat, core': nat, iter': nat, cores: nat, batches: nat, mLoop: nat, nLoop: nat, cnt: nat)
    requires cnt > 0 && core < cores && core' < cores
    requires core + iter * cores < batches * (mLoop * nLoop) && core' + iter' * cores < batches * (mLoop * nLoop)
    requires core != core' || iter != iter'
    ensures TileOfIteration(core, iter, cores, batches, mLoop, nLoop, cnt)
         != TileOfIteration(core', iter', cores, batches, mLoop, nLoop, cnt)
  {
    var i, i' := core + iter * cores, core' + iter' * cores;
    if i == i' {
      DivModOfSum(iter, cores, core);
      DivModOfSum(iter', cores, core');
    }
    TileOfIsBijection(0, i, batches, mLoop, nLoop, cnt);
    TileOfIsBijection(0, i', batches, mLoop, nLoop, cnt);
  }

  // The rows of a tile that vector core `sub` takes: the first half, or the rest.
  function HalfOf(rows: nat, sub: nat): (r: (nat, nat))
    ensures sub == 0 ==> r.0 == 0 && r.1 == rows / 2
    ensures sub != 0 ==> r.0 == rows / 2 && r.0 + r.1 == rows
  {
    if sub == 0 then (0, rows / 2) else (rows / 2, rows - rows / 2)
  }

  // Every row of a tile is dequantised by exactly one vector core; one half is empty when there is one row.
  lemma HalvesJoin(rows: nat, r: nat)
    requires r < rows
    ensures exists sub: nat :: sub < 2 && HalfOf(rows, sub).0 <= r < HalfOf(rows, sub).0 + HalfOf(rows, sub).1
    ensures !(HalfOf(rows, 0).0 <= r < HalfOf(rows, 0).0 + HalfOf(rows, 0).1
              && HalfOf(rows, 1).0 <= r < HalfOf(rows, 1).0 + HalfOf(rows, 1).1)
    ensures HalfOf(rows, 0).1 == 0 <==> rows == 1
  {
    var sub: nat := if r < rows / 2 then 0 else 1;
    assert HalfOf(rows, sub).0 <= r < HalfOf(rows, sub).0 + HalfOf(rows, sub).1;
  }
}
