/** Greedy verification of the trees that the build kernel has left in its outputs. */
module BuildAndVerify {
  import opened Buffers
  import opened DraftTree
  import opened MaskLayout
  import opened BuildTreeKernel
  import opened BuildTreeLaunch
  import opened VerifyTree

  // What the verifier is given of request b: the request's rows of the outputs, its tokens and its targets.
  ghost function RowOf(f: Forest, s: Out, b: nat, tokens: seq<int>, target: seq<int>): Row
    requires f.Ok() && s.Fits(f) && b < |f.lens|
  {
    RowFits(b, |f.lens|, f.d);
    var at := TableAt(b, f.d);
    Row(tokens, Cut(s.index, at, f.d), Cut(s.next, at, f.d), Cut(s.sibling, at, f.d), target)
  }

  ghost predicate TokensOk(f: Forest, tokens: seq<seq<int>>, targets: seq<seq<int>>) {
    && |tokens| == |targets| == |f.lens|
    && forall b :: 0 <= b < |f.lens| ==> |tokens[b]| == |targets[b]| == f.d
  }

  ghost function RowsOf(f: Forest, s: Out, tokens: seq<seq<int>>, targets: seq<seq<int>>): (rows: seq<Row>)
    requires f.Ok() && s.Fits(f) && TokensOk(f, tokens, targets)
    ensures |rows| == |f.lens|
    ensures forall b :: 0 <= b < |rows| ==> rows[b] == RowOf(f, s, b, tokens[b], targets[b])
  {
    seq(|f.lens|, b requires 0 <= b < |f.lens| => RowOf(f, s, b, tokens[b], targets[b]))
  }

  // The outputs after a launch.
  ghost function Built(f: Forest, s: Out): (o: Out)
    requires f.Ok() && s.Fits(f)
    ensures o.Fits(f)
  {
    FitsStays(f, s, 0, |f.lens|);
    AfterRequests(f, s, 0, |f.lens|)
  }

  lemma HeldRowOk(f: Forest, o: Out, b: nat, tokens: seq<int>, target: seq<int>)
    requires f.Ok() && o.Fits(f) && b < |f.lens| && |tokens| == |target| == f.d
    requires forall i :: 0 <= i < f.d ==> NodeHeld(f, o, b, i)
    ensures RowOk(RowOf(f, o, b, tokens, target), f.pars[b], TableAt(b, f.d), f.d)
  {
    var row, par := RowOf(f, o, b, tokens, target), f.pars[b];
    RowFits(b, |f.lens|, f.d);
    forall i | 0 <= i < f.d
      ensures row.index[i] == TableAt(b, f.d) + i && row.next[i] == FirstChild(par, i, 1) && row.sibling[i] == SiblingOf(par, i)
    {
      assert NodeHeld(f, o, b, i);
    }
  }

  lemma BuiltRowOk(f: Forest, s: Out, b: nat, tokens: seq<int>, target: seq<int>)
    requires f.Ok() && s.Fits(f) && b < |f.lens| && |tokens| == |target| == f.d
    ensures RowOk(RowOf(f, Built(f, s), b, tokens, target), f.pars[b], TableAt(b, f.d), f.d)
  {
    forall i | 0 <= i < f.d
      ensures NodeHeld(f, Built(f, s), b, i)
    {
      NodesHeld(f, s, 0, |f.lens|, b, i);
    }
    HeldRowOk(f, Built(f, s), b, tokens, target);
  }

  // Whatever the outputs held before, the launch leaves links and numbers that the verifier can walk.
  lemma BuiltBatchOk(f: Forest, s: Out, tokens: seq<seq<int>>, targets: seq<seq<int>>)
    requires f.Ok() && s.Fits(f) && TokensOk(f, tokens, targets)
    ensures BatchOk(RowsOf(f, Built(f, s), tokens, targets), f.pars, f.d)
  {
    var rows := RowsOf(f, Built(f, s), tokens, targets);
    forall b | 0 <= b < |rows|
      ensures RowOk(rows[b], f.pars[b], TableAt(b, f.d), f.d)
    {
      BuiltRowOk(f, s, b, tokens[b], targets[b]);
    }
  }

  // The way that the verifier then accepts on a request's tree matches the targets, cannot be extended, and, when
  // siblings carry different tokens, begins with every matching way from the root.
  lemma VerifiedOnBuiltTree(f: Forest, s: Out, tokens: seq<seq<int>>, targets: seq<seq<int>>, b: nat)
    requires f.Ok() && s.Fits(f) && TokensOk(f, tokens, targets) && b < |f.lens|
    ensures BatchOk(RowsOf(f, Built(f, s), tokens, targets), f.pars, f.d)
    ensures var par, path := f.pars[b], PathOf(RowsOf(f, Built(f, s), tokens, targets), f.pars, f.d, b);
            && path[0] == 0 && Matches(par, tokens[b], targets[b], path)
            && !Extensible(par, tokens[b], targets[b], path[|path| - 1])
            && (SiblingsDiffer(par, tokens[b]) ==>
                  forall way :: Matches(par, tokens[b], targets[b], way) && way[0] == 0 ==> way <= path)
  {
    BuiltBatchOk(f, s, tokens, targets);
    AcceptedMatches(f.pars[b], tokens[b], targets[b], 0);
    if SiblingsDiffer(f.pars[b], tokens[b]) {
      forall way | Matches(f.pars[b], tokens[b], targets[b], way) && way[0] == 0
        ensures way <= Accepted(f.pars[b], tokens[b], targets[b], 0)
      {
        AcceptedIsLongest(f.pars[b], tokens[b], targets[b], way);
      }
    }
  }
}
