/** The two-slot buffer between the indexer's cube core and its two vector cores, as a state machine
    over every interleaving of the three. Cross-core flags are counting semaphores; a wait of the cube
    takes one credit from each vector core. */
module CubeVectorCredits {

  const SLOTS: nat := 2

  // What a buffer slot holds: nothing usable, or the scores of a block.
  datatype Slot = Torn | Scores(block: nat)

  datatype Vec = Vec(primed: nat, pos: nat, busy: bool, credit: int, ready: int)

  datatype State = State(
    n: nat,             // blocks in the core's range: the same for the three cores
    filled: nat,        // blocks the cube core has handed over
    filling: bool,
    drained: nat,       // final waits of the cube core
    slots: seq<Slot>,
    vecs: seq<Vec>)

  datatype Step =
    | Prime(v: nat)        // a vector core hands out one of its two opening credits
    | FillStart            // the cube waits for a credit of both vectors and starts block `filled`
    | FillEnd              // ... has written the scores and signals both vectors
    | UseStart(v: nat)     // a vector waits for the signal and starts on its next block
    | UseEnd(v: nat)       // ... is done with the slot and gives the credit back
    | Drain                // the cube takes back one opening credit

  ghost predicate Init(s: State) {
    && s.filled == 0 && !s.filling && s.drained == 0
    && s.slots == [Torn, Torn]
    && s.vecs == [Vec(0, 0, false, 0, 0), Vec(0, 0, false, 0, 0)]
  }

  ghost predicate Enabled(s: State, step: Step)
    requires |s.vecs| == 2
  {
    match step
    case Prime(v) => v < 2 && s.vecs[v].primed < 2
    case FillStart => !s.filling && s.filled < s.n && s.vecs[0].credit > 0 && s.vecs[1].credit > 0
    case FillEnd => s.filling
    case UseStart(v) => v < 2 && s.vecs[v].primed == 2 && !s.vecs[v].busy && s.vecs[v].pos < s.n && s.vecs[v].ready > 0
    case UseEnd(v) => v < 2 && s.vecs[v].busy
    case Drain => !s.filling && s.filled == s.n && s.drained < 2 && s.vecs[0].credit > 0 && s.vecs[1].credit > 0
  }

  function TakeCredit(vecs: seq<Vec>): seq<Vec>
    requires |vecs| == 2
  {
    [vecs[0].(credit := vecs[0].credit - 1), vecs[1].(credit := vecs[1].credit - 1)]
  }

  function Signal(vecs: seq<Vec>): seq<Vec>
    requires |vecs| == 2
  {
    [vecs[0].(ready := vecs[0].ready + 1), vecs[1].(ready := vecs[1].ready + 1)]
  }

  ghost function After(s: State, step: Step): State
    requires |s.vecs| == 2 && |s.slots| == SLOTS && Enabled(s, step)
  {
    match step
    case Prime(v) =>
      s.(vecs := s.vecs[v := s.vecs[v].(primed := s.vecs[v].primed + 1, credit := s.vecs[v].credit + 1)])
    case FillStart =>
      s.(filling := true, slots := s.slots[s.filled % SLOTS := Torn], vecs := TakeCredit(s.vecs))
    case FillEnd =>
      s.(filling := false, filled := s.filled + 1,
         slots := s.slots[s.filled % SLOTS := Scores(s.filled)], vecs := Signal(s.vecs))
    case UseStart(v) =>
      s.(vecs := s.vecs[v := s.vecs[v].(busy := true, ready := s.vecs[v].ready - 1)])
    case UseEnd(v) =>
      s.(vecs := s.vecs[v := s.vecs[v].(busy := false, pos := s.vecs[v].pos + 1, credit := s.vecs[v].credit + 1)])
    case Drain =>
      s.(drained := s.drained + 1, vecs := TakeCredit(s.vecs))
  }

  ghost predicate Next(s: State, s': State) {
    |s.vecs| == 2 && |s.slots| == SLOTS && exists step :: Enabled(s, step) && s' == After(s, step)
  }

  // A run: any interleaving, of any length.
  ghost predicate Run(t: seq<State>) {
    && t != [] && Init(t[0])
    && forall i :: 0 <= i < |t| - 1 ==> Next(t[i], t[i + 1])
  }

  function One(b: bool): nat {
    if b then 1 else 0
  }

  ghost predicate VecInv(s: State, x: Vec) {
    && x.primed <= 2
    && (x.pos > 0 || x.busy ==> x.primed == 2)
    && x.credit == x.primed + x.pos - (s.filled + One(s.filling) + s.drained)
    && x.ready == s.filled - (x.pos + One(x.busy))
    && x.credit >= 0 && x.ready >= 0
  }

  ghost predicate Counts(s: State) {
    && |s.vecs| == 2 && |s.slots| == SLOTS
    && s.filled <= s.n && (s.filling ==> s.filled < s.n)
    && s.drained <= 2 && (s.drained > 0 ==> s.filled == s.n && !s.filling)
    && VecInv(s, s.vecs[0]) && VecInv(s, s.vecs[1])
  }

  // Every block handed over and not yet used by both vectors still stands in its slot.
  ghost predicate Fresh(s: State)
    requires |s.vecs| == 2 && |s.slots| == SLOTS
  {
    forall i :: 0 <= i < s.filled && (i >= s.vecs[0].pos || i >= s.vecs[1].pos) ==> s.slots[i % SLOTS] == Scores(i)
  }

  ghost predicate Inv(s: State) {
    Counts(s) && Fresh(s)
  }

  // ----- what is promised of every reachable state -----

  // A vector core that works on a block finds that block's scores in the slot, all of them.
  ghost predicate ReadsAreFresh(s: State) {
    |s.vecs| == 2 && |s.slots| == SLOTS &&
    forall v :: 0 <= v < 2 && s.vecs[v].busy ==> s.slots[s.vecs[v].pos % SLOTS] == Scores(s.vecs[v].pos)
  }

  // The cube core never writes a slot before both vector cores are done with its last block.
  ghost predicate WritesAreSafe(s: State) {
    |s.vecs| == 2 &&
    (s.filling ==> forall v :: 0 <= v < 2 ==> s.filled < s.vecs[v].pos + SLOTS)
  }

  ghost predicate CountersSmall(s: State) {
    |s.vecs| == 2 && forall v :: 0 <= v < 2 ==> 0 <= s.vecs[v].credit <= 2 && 0 <= s.vecs[v].ready <= 2
  }

  ghost predicate Finished(s: State) {
    && |s.vecs| == 2 && s.filled == s.n && !s.filling && s.drained == 2
    && forall v :: 0 <= v < 2 ==> s.vecs[v].primed == 2 && s.vecs[v].pos == s.n && !s.vecs[v].busy
  }

  predicate IsVectorStep(step: Step) {
    step.Prime? || step.UseStart? || step.UseEnd?
  }

  lemma VectorStepKeepsCounts(s: State, step: Step)
    requires Counts(s) && Enabled(s, step) && IsVectorStep(step)
    ensures Counts(After(s, step))
  {
    var s' := After(s, step);
    if step.v == 0 {
      assert VecInv(s', s'.vecs[0]);
    } else {
      assert VecInv(s', s'.vecs[1]);
    }
  }

  lemma CubeStepKeepsCounts(s: State, step: Step)
    requires Counts(s) && Enabled(s, step) && !IsVectorStep(step)
    ensures Counts(After(s, step))
  {
  }

  lemma StepKeepsCounts(s: State, step: Step)
    requires Counts(s) && Enabled(s, step)
    ensures Counts(After(s, step))
  {
    if IsVectorStep(step) {
      VectorStepKeepsCounts(s, step);
    } else {
      CubeStepKeepsCounts(s, step);
    }
  }

  lemma StepKeepsFresh(s: State, step: Step)
    requires Inv(s) && Enabled(s, step)
    ensures Counts(After(s, step)) ==> Fresh(After(s, step))
  {
    var s' := After(s, step);
    if step.FillStart? || step.FillEnd? {
      forall i | 0 <= i < s'.filled && (i >= s'.vecs[0].pos || i >= s'.vecs[1].pos)
        ensures Counts(s') ==> s'.slots[i % SLOTS] == Scores(i)
      {
        if i < s.filled {
          assert s.slots[i % SLOTS] == Scores(i);
          if i + SLOTS > s.filled {
            OtherSlot(i, s.filled);
          }
        }
      }
    }
  }

  // Two blocks less than two apart do not share a slot.
  lemma OtherSlot(i: nat, k: nat)
    requires i < k < i + SLOTS
    ensures i % SLOTS != k % SLOTS
  {
  }

  lemma {:induction false} RunKeepsInv(t: seq<State>, i: nat)
    requires Run(t) && i < |t|
    ensures Inv(t[i]) && t[i].n == t[0].n
  {
    if i > 0 {
      RunKeepsInv(t, i - 1);
      assert Next(t[i - 1], t[i - 1 + 1]);
      var step :| Enabled(t[i - 1], step) && t[i] == After(t[i - 1], step);
      StepKeepsCounts(t[i - 1], step);
      StepKeepsFresh(t[i - 1], step);
    }
  }

  // In every interleaving no slot is overwritten too early or read too early, and no counter exceeds 2.
  lemma BufferIsSafe(t: seq<State>, i: nat)
    requires Run(t) && i < |t|
    ensures ReadsAreFresh(t[i]) && WritesAreSafe(t[i]) && CountersSmall(t[i])
  {
    RunKeepsInv(t, i);
  }

  // No deadlock: some core can move in every reachable state that is not the end.
  lemma NeverStuck(t: seq<State>, i: nat)
    requires Run(t) && i < |t| && !Finished(t[i])
    ensures exists s' :: Next(t[i], s')
  {
    RunKeepsInv(t, i);
    var s := t[i];
    var step :=
      if s.vecs[0].primed < 2 then Prime(0)
      else if s.vecs[1].primed < 2 then Prime(1)
      else if s.filling then FillEnd
      else if s.vecs[0].busy then UseEnd(0)
      else if s.vecs[1].busy then UseEnd(1)
      else if s.vecs[0].ready > 0 then UseStart(0)
      else if s.vecs[1].ready > 0 then UseStart(1)
      else if s.filled < s.n then FillStart
      else Drain;
    assert Enabled(s, step);
    assert Next(s, After(s, step));
  }

  // Every run comes to an end: a step uses up one of finitely many moves.
  ghost function MovesLeft(s: State): int
    requires |s.vecs| == 2
  {
    2 * (s.n - s.filled) - One(s.filling) + (2 - s.drained)
    + VecMovesLeft(s.n, s.vecs[0]) + VecMovesLeft(s.n, s.vecs[1])
  }

  function VecMovesLeft(n: nat, x: Vec): int {
    (2 - x.primed) + 2 * (n - x.pos) - One(x.busy)
  }

  lemma StepUsesMove(s: State, step: Step)
    requires |s.vecs| == 2 && |s.slots| == SLOTS && Enabled(s, step)
    ensures MovesLeft(After(s, step)) == MovesLeft(s) - 1
  {
  }

  lemma {:induction false} RunsAreBounded(t: seq<State>, i: nat)
    requires Run(t) && i < |t|
    ensures |t[i].vecs| == 2 && 0 <= MovesLeft(t[i]) == 6 * t[0].n + 6 - i
  {
    RunKeepsInv(t, i);
    if i > 0 {
      RunsAreBounded(t, i - 1);
      assert Next(t[i - 1], t[i - 1 + 1]);
      var step :| Enabled(t[i - 1], step) && t[i] == After(t[i - 1], step);
      StepUsesMove(t[i - 1], step);
    }
  }

  // At the end every block was used by both vector cores and every credit is back; every complete run
  // takes the same number of steps.
  lemma EndsBalanced(t: seq<State>, i: nat)
    requires Run(t) && i < |t| && Finished(t[i])
    ensures forall v :: 0 <= v < 2 ==> t[i].vecs[v].credit == 0 && t[i].vecs[v].ready == 0
    ensures i == 6 * t[0].n + 6
  {
    RunKeepsInv(t, i);
    RunsAreBounded(t, i);
  }
}
