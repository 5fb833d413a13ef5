/** Greedy verification of a draft tree against the target model's tokens. */
module VerifyTree {
  import opened Arith
  import opened Buffers
  import opened DraftTree

  // ----- what greedy verification is to find -----

  // The first child of p, from number k on, whose token is x; -1 if there is none.
  function FirstMatch(par: seq<nat>, tokens: seq<int>, x: int, p: nat, k: nat): (c: int)
    requires |tokens| == |par|
    ensures c == -1 || (k <= c < |par| && c > 0 && par[c] == p && tokens[c] == x)
    decreases |par| - k
  {
    if k >= |par| then -1
    else if k > 0 && par[k] == p && tokens[k] == x then k
    else FirstMatch(par, tokens, x, p, k + 1)
  }

  lemma {:induction false} NoneSkipped(par: seq<nat>, tokens: seq<int>, x: int, p: nat, k: nat, c: nat)
    requires |tokens| == |par| && k <= c < |par| && c > 0 && par[c] == p && tokens[c] == x
    ensures k <= FirstMatch(par, tokens, x, p, k) <= c
    decreases |par| - k
  {
    if k < c {
      NoneSkipped(par, tokens, x, p, k + 1, c);
    }
  }

  lemma ChildIsLater(par: seq<nat>, tokens: seq<int>, x: int, p: nat)
    requires Rooted(par) && |tokens| == |par|
    ensures FirstMatch(par, tokens, x, p, 1) == -1 || p < FirstMatch(par, tokens, x, p, 1)
  {
    var c := FirstMatch(par, tokens, x, p, 1);
    if c != -1 {
      assert par[c] < c;
    }
  }

  // The accepted way from a node on: always to the first child that carries the target's token.
  function Accepted(par: seq<nat>, tokens: seq<int>, target: seq<int>, node: nat): (path: seq<nat>)
    requires Rooted(par) && |tokens| == |target| == |par| && node < |par|
    ensures path != [] && path[0] == node
    decreases |par| - node
  {
    var c := FirstMatch(par, tokens, target[node], node, 1);
    if c == -1 then [node]
    else
      assert par[c] < c;
      [node] + Accepted(par, tokens, target, c)
  }

  // A way down the tree on which every token is the target's token at the parent.
  ghost predicate Matches(par: seq<nat>, tokens: seq<int>, target: seq<int>, path: seq<nat>) {
    && |tokens| == |target| == |par| && path != [] && (forall k :: 0 <= k < |path| ==> path[k] < |par|)
    && forall k :: 0 < k < |path| ==>
         path[k] > 0 && par[path[k]] == path[k - 1] && tokens[path[k]] == target[path[k - 1]]
  }

  ghost predicate Extensible(par: seq<nat>, tokens: seq<int>, target: seq<int>, node: nat)
    requires |tokens| == |target| == |par| && node < |par|
  {
    exists c :: 0 < c < |par| && par[c] == node && tokens[c] == target[node]
  }

  // Siblings carry different tokens.
  ghost predicate SiblingsDiffer(par: seq<nat>, tokens: seq<int>) {
    |tokens| == |par| && forall i, j :: 0 < i < j < |par| && par[i] == par[j] ==> tokens[i] != tokens[j]
  }

  // The accepted way matches, and cannot be extended.
  lemma {:induction false} AcceptedMatches(par: seq<nat>, tokens: seq<int>, target: seq<int>, node: nat)
    requires Rooted(par) && |tokens| == |target| == |par| && node < |par|
    ensures var path := Accepted(par, tokens, target, node);
            && Matches(par, tokens, target, path)
            && !Extensible(par, tokens, target, path[|path| - 1])
    decreases |par| - node
  {
    var c := FirstMatch(par, tokens, target[node], node, 1);
    if c == -1 {
      forall i | 0 < i < |par| && par[i] == node && tokens[i] == target[node]
        ensures false
      {
        NoneSkipped(par, tokens, target[node], node, 1, i);
      }
    } else {
      assert par[c] < c;
      AcceptedMatches(par, tokens, target, c);
      MatchesFrom(par, tokens, target, node, Accepted(par, tokens, target, c));
    }
  }

  lemma MatchesFrom(par: seq<nat>, tokens: seq<int>, target: seq<int>, node: nat, rest: seq<nat>)
    requires Matches(par, tokens, target, rest) && node < |par|
    requires rest[0] > 0 && par[rest[0]] == node && tokens[rest[0]] == target[node]
    ensures Matches(par, tokens, target, [node] + rest) && ([node] + rest)[|rest|] == rest[|rest| - 1]
  {
    assert forall k :: 0 < k < |[node] + rest| ==> ([node] + rest)[k] == rest[k - 1];
  }

  // When siblings differ, every matching way from the same node is a beginning of the accepted one; so the
  // accepted way is the only longest.
  lemma {:induction false} AcceptedIsLongest(par: seq<nat>, tokens: seq<int>, target: seq<int>, path: seq<nat>)
    requires Rooted(par) && SiblingsDiffer(par, tokens) && Matches(par, tokens, target, path)
    ensures path <= Accepted(par, tokens, target, path[0])
    decreases |path|
  {
    if |path| > 1 {
      var rest := path[1..];
      assert forall k :: 0 <= k < |rest| ==> rest[k] == path[k + 1];
      AcceptedIsLongest(par, tokens, target, rest);
      OnlyMatch(par, tokens, target[path[0]], path[0], path[1]);
      assert path == [path[0]] + rest;
    }
  }

  lemma OnlyMatch(par: seq<nat>, tokens: seq<int>, x: int, p: nat, c: nat)
    requires SiblingsDiffer(par, tokens) && 0 < c < |par| && par[c] == p && tokens[c] == x
    ensures FirstMatch(par, tokens, x, p, 1) == c
  {
    NoneSkipped(par, tokens, x, p, 1, c);
  }

  // Nodes on a matching way from the root: increasing, and the k-th at depth k.
  lemma {:induction false} PathDepth(par: seq<nat>, tokens: seq<int>, target: seq<int>, path: seq<nat>, k: nat)
    requires Rooted(par) && Matches(par, tokens, target, path) && path[0] == 0 && k < |path|
    ensures Depth(par, path[k]) == k <= path[k]
  {
    if k > 0 {
      PathDepth(par, tokens, target, path, k - 1);
    }
  }

  // ----- the walk over the links -----

  // Along the sibling links from child c on: the first match.
  lemma {:induction false} MatchFromChild(par: seq<nat>, tokens: seq<int>, x: int, p: nat, k: nat)
    requires |tokens| == |par|
    ensures var c := FirstChild(par, p, k);
            if c == -1 then FirstMatch(par, tokens, x, p, k) == -1
            else FirstMatch(par, tokens, x, p, k) == if tokens[c] == x then c else FirstMatch(par, tokens, x, p, c + 1)
    decreases |par| - k
  {
    if k < |par| && !(k > 0 && par[k] == p) {
      MatchFromChild(par, tokens, x, p, k + 1);
    }
  }

  method FindMatch(ghost par: seq<nat>, tokens: seq<int>, next: seq<int>, sibling: seq<int>, x: int, node: nat)
    returns (cur: int)
    requires Rooted(par) && |tokens| == |par| && Linked(par, next, sibling) && node < |par|
    ensures cur == FirstMatch(par, tokens, x, node, 1)
  {
    cur := next[node];
    ghost var k := 1;
    while cur != -1
      invariant 1 <= k <= |par| && cur == FirstChild(par, node, k)
      invariant FirstMatch(par, tokens, x, node, 1) == FirstMatch(par, tokens, x, node, k)
      decreases |par| - k
    {
      MatchFromChild(par, tokens, x, node, k);
      if tokens[cur] == x {
        return;
      }
      k := cur + 1;
      cur := sibling[cur];
    }
    MatchFromChild(par, tokens, x, node, k);
  }

  // The state of the walk when it stands at `node`: the way so far, and what is still to come.
  ghost predicate Standing(par: seq<nat>, tokens: seq<int>, target: seq<int>, done: seq<nat>, node: nat)
    requires Rooted(par) && |tokens| == |target| == |par| && node < |par|
  {
    Accepted(par, tokens, target, 0) == done + Accepted(par, tokens, target, node) && |done| <= node
  }

  lemma StepDown(par: seq<nat>, tokens: seq<int>, target: seq<int>, done: seq<nat>, node: nat, c: int)
    requires Rooted(par) && |tokens| == |target| == |par| && node < |par| && Standing(par, tokens, target, done, node)
    requires c == FirstMatch(par, tokens, target[node], node, 1) && c != -1
    ensures node < c < |par| && Standing(par, tokens, target, done + [node], c)
  {
    assert par[c] < c;
    Regroup(done, node, Accepted(par, tokens, target, c));
  }

  lemma Regroup(a: seq<nat>, x: nat, b: seq<nat>)
    ensures a + ([x] + b) == a + [x] + b
  {
  }

  // The predictions of one row after the nodes `done`.
  ghost predicate Predicted(before: seq<int>, after: seq<int>, base: nat, d: nat, target: seq<int>, done: seq<nat>) {
    && |after| == |before| && base + d <= |after| && |target| == d
    && forall a :: 0 <= a < |after| ==>
         after[a] == if base <= a < base + d && a - base in done then target[a - base] else before[a]
  }

  ghost predicate AcceptedRow(before: seq<int>, after: seq<int>, base: nat, done: seq<nat>) {
    && |after| == |before| && |done| <= |after|
    && forall k :: 0 <= k < |after| ==> after[k] == if k < |done| then base + done[k] else before[k]
  }

  method Predict(predicts: array<int>, base: nat, node: nat, v: int,
                 ghost before: seq<int>, ghost target: seq<int>, ghost done: seq<nat>)
    requires Predicted(before, predicts[..], base, |target|, target, done) && node < |target| && v == target[node]
    modifies predicts
    ensures Predicted(before, predicts[..], base, |target|, target, done + [node])
  {
    predicts[base + node] := v;
  }

  method Accept(accept: array<int>, k: nat, base: nat, node: nat, ghost before: seq<int>, ghost done: seq<nat>)
    requires AcceptedRow(before, accept[..], base, done) && k == |done| < accept.Length
    modifies accept
    ensures AcceptedRow(before, accept[..], base, done + [node])
  {
    accept[k] := base + node;
  }

  // One request: its row of links and tokens, the shared predictions, and its row of accepted indices.
  method VerifyRow(ghost par: seq<nat>, base: nat, tokens: seq<int>, index: seq<int>, next: seq<int>, sibling: seq<int>,
                   target: seq<int>, predicts: array<int>, accept: array<int>) returns (numAccepted: nat)
    requires Rooted(par) && |tokens| == |target| == |index| == |par| && Linked(par, next, sibling)
    requires forall i :: 0 <= i < |index| ==> index[i] == base + i
    requires base + |par| <= predicts.Length && predicts != accept
    requires forall i :: 0 <= i < |par| ==> Depth(par, i) < accept.Length
    modifies predicts, accept
    ensures var path := Accepted(par, tokens, target, 0);
            && numAccepted == |path| - 1
            && AcceptedRow(old(accept[..]), accept[..], base, path)
            && Predicted(old(predicts[..]), predicts[..], base, |par|, target, path)
  {
    var d := |tokens|;
    RowLongEnough(par, tokens, target, accept.Length);
    ghost var done: seq<nat>, path := [], Accepted(par, tokens, target, 0);
    var lastAcceptedIdx := index[0];
    Accept(accept, 0, base, 0, accept[..], done);
    numAccepted := 0;
    var curNode: nat := 0;
    var it := 1;
    while it < d
      invariant 1 <= it <= d && curNode < d && curNode >= it - 1 && numAccepted == |done|
      invariant Standing(par, tokens, target, done, curNode)
      invariant lastAcceptedIdx == base + curNode
      invariant AcceptedRow(old(accept[..]), accept[..], base, done + [curNode])
      invariant Predicted(old(predicts[..]), predicts[..], base, d, target, done)
    {
      var targetToken := target[lastAcceptedIdx - base];
      var c := FindMatch(par, tokens, next, sibling, targetToken, curNode);
      if c == -1 {
        break;
      }
      StepDown(par, tokens, target, done, curNode, c);
      Predict(predicts, base, lastAcceptedIdx - base, targetToken, old(predicts[..]), target, done);
      done, numAccepted := done + [curNode], numAccepted + 1;
      DoneIsShort(par, tokens, target, done, c);
      Accept(accept, numAccepted, base, c, old(accept[..]), done);
      lastAcceptedIdx := index[c];
      curNode := c;
      it := it + 1;
    }
    EndOfWay(par, tokens, target, done, curNode);
    Predict(predicts, base, lastAcceptedIdx - base, target[lastAcceptedIdx - base], old(predicts[..]), target, done);
  }

  lemma DoneIsShort(par: seq<nat>, tokens: seq<int>, target: seq<int>, done: seq<nat>, node: nat)
    requires Rooted(par) && |tokens| == |target| == |par| && node < |par| && Standing(par, tokens, target, done, node)
    ensures |done| < |Accepted(par, tokens, target, 0)|
  {
  }

  // The walk ends where no child matches, at the latest at the last node.
  lemma EndOfWay(par: seq<nat>, tokens: seq<int>, target: seq<int>, done: seq<nat>, node: nat)
    requires Rooted(par) && |tokens| == |target| == |par| && node < |par| && Standing(par, tokens, target, done, node)
    requires FirstMatch(par, tokens, target[node], node, 1) == -1 || node == |par| - 1
    ensures Accepted(par, tokens, target, 0) == done + [node]
  {
    ChildIsLater(par, tokens, target[node], node);
  }

  // A row as long as the tree is deep holds every accepted way.
  lemma RowLongEnough(par: seq<nat>, tokens: seq<int>, target: seq<int>, n: nat)
    requires Rooted(par) && |tokens| == |target| == |par|
    requires forall i :: 0 <= i < |par| ==> Depth(par, i) < n
    ensures |Accepted(par, tokens, target, 0)| <= n
  {
    var path := Accepted(par, tokens, target, 0);
    AcceptedMatches(par, tokens, target, 0);
    PathDepth(par, tokens, target, path, |path| - 1);
  }

  // ----- the batch -----

  // What one request brings along.
  datatype Row = Row(tokens: seq<int>, index: seq<int>, next: seq<int>, sibling: seq<int>, target: seq<int>)

  ghost predicate RowOk(r: Row, par: seq<nat>, base: nat, d: nat) {
    && Rooted(par) && |par| == |r.tokens| == |r.index| == |r.target| == d && Linked(par, r.next, r.sibling)
    && forall i :: 0 <= i < d ==> r.index[i] == base + i
  }

  ghost predicate BatchOk(rows: seq<Row>, pars: seq<seq<nat>>, d: nat) {
    |rows| == |pars| && forall b :: 0 <= b < |rows| ==> RowOk(rows[b], pars[b], TableAt(b, d), d)
  }

  function PathOf(rows: seq<Row>, pars: seq<seq<nat>>, d: nat, b: nat): seq<nat>
    requires BatchOk(rows, pars, d) && b < |rows|
  {
    assert RowOk(rows[b], pars[b], TableAt(b, d), d);
    Accepted(pars[b], rows[b].tokens, rows[b].target, 0)
  }

  // The predictions after the first n requests: on each accepted way the targets, the rest as before.
  ghost predicate AllPredicted(rows: seq<Row>, pars: seq<seq<nat>>, d: nat, n: nat, before: seq<int>, after: seq<int>)
    requires BatchOk(rows, pars, d) && n <= |rows|
  {
    && |after| == |before| == TableAt(|rows|, d)
    && forall b: nat, i: nat :: b < |rows| && i < d ==>
         Cell(after, d, b, i)
         == if b < n && i in PathOf(rows, pars, d, b) then rows[b].target[i] else Cell(before, d, b, i)
  }

  function At(s: seq<int>, k: nat): int {
    if k < |s| then s[k] else 0
  }

  // Entry i of row b.
  function Cell(s: seq<int>, d: nat, b: nat, i: nat): int {
    At(s, TableAt(b, d) + i)
  }

  lemma OneRowMore(rows: seq<Row>, pars: seq<seq<nat>>, d: nat, n: nat, before: seq<int>, mid: seq<int>, after: seq<int>)
    requires BatchOk(rows, pars, d) && n < |rows| && AllPredicted(rows, pars, d, n, before, mid)
    requires Predicted(mid, after, TableAt(n, d), d, rows[n].target, PathOf(rows, pars, d, n))
    ensures AllPredicted(rows, pars, d, n + 1, before, after)
  {
    forall b: nat, i: nat | b < |rows| && i < d
      ensures Cell(after, d, b, i)
           == if b < n + 1 && i in PathOf(rows, pars, d, b) then rows[b].target[i] else Cell(before, d, b, i)
    {
      MorePredicted(rows, pars, d, n, before, mid, after, b, i);
    }
  }

  lemma MorePredicted(rows: seq<Row>, pars: seq<seq<nat>>, d: nat, n: nat, before: seq<int>, mid: seq<int>, after: seq<int>,
                      b: nat, i: nat)
    requires BatchOk(rows, pars, d) && n < |rows| && AllPredicted(rows, pars, d, n, before, mid)
    requires Predicted(mid, after, TableAt(n, d), d, rows[n].target, PathOf(rows, pars, d, n))
    requires b < |rows| && i < d
    ensures Cell(after, d, b, i)
         == if b < n + 1 && i in PathOf(rows, pars, d, b) then rows[b].target[i] else Cell(before, d, b, i)
  {
    PlaceInRow(b, i, n, d, |rows|);
    CellWas(rows, pars, d, n, before, mid, b, i);
    PredictedAt(mid, after, TableAt(n, d), d, rows[n].target, PathOf(rows, pars, d, n), TableAt(b, d) + i);
  }

  lemma CellWas(rows: seq<Row>, pars: seq<seq<nat>>, d: nat, n: nat, before: seq<int>, mid: seq<int>, b: nat, i: nat)
    requires BatchOk(rows, pars, d) && n < |rows| && AllPredicted(rows, pars, d, n, before, mid) && b < |rows| && i < d
    ensures |mid| == TableAt(|rows|, d)
    ensures Cell(mid, d, b, i) == if b < n && i in PathOf(rows, pars, d, b) then rows[b].target[i] else Cell(before, d, b, i)
  {
  }

  lemma PredictedAt(mid: seq<int>, after: seq<int>, base: nat, d: nat, target: seq<int>, done: seq<nat>, a: nat)
    requires Predicted(mid, after, base, d, target, done) && a < |mid|
    ensures At(after, a) == if base <= a < base + d && a - base in done then target[a - base] else At(mid, a)
  {
  }

  // A place of row b lies in row n only if b is n.
  lemma PlaceInRow(b: nat, i: nat, n: nat, d: nat, rows: nat)
    requires i < d && b < rows
    ensures TableAt(b, d) + i < TableAt(rows, d)
    ensures TableAt(n, d) <= TableAt(b, d) + i < TableAt(n, d) + d <==> b == n
  {
    MulOrder(b, n, d);
    MulOrder(n, b, d);
    MulOrder(b, rows, d);
  }

  method VerifyRequest(rows: seq<Row>, ghost pars: seq<seq<nat>>, d: nat, bx: nat, predicts: array<int>,
                       accept: array<int>, ghost before: seq<int>) returns (numAccepted: nat)
    requires BatchOk(rows, pars, d) && bx < |rows| && AllPredicted(rows, pars, d, bx, before, predicts[..])
    requires predicts != accept && forall i :: 0 <= i < d ==> Depth(pars[bx], i) < accept.Length
    modifies predicts, accept
    ensures AllPredicted(rows, pars, d, bx + 1, before, predicts[..])
    ensures numAccepted == |PathOf(rows, pars, d, bx)| - 1
    ensures AcceptedRow(old(accept[..]), accept[..], TableAt(bx, d), PathOf(rows, pars, d, bx))
  {
    ghost var mid := predicts[..];
    var r := rows[bx];
    MulOrder(bx, |rows|, d);
    numAccepted := VerifyRow(pars[bx], TableAt(bx, d), r.tokens, r.index, r.next, r.sibling, r.target, predicts, accept);
    OneRowMore(rows, pars, d, bx, before, mid, predicts[..]);
  }

  method VerifyTreeGreedy(rows: seq<Row>, ghost pars: seq<seq<nat>>, d: nat, predicts: array<int>,
                          accept: seq<array<int>>, acceptTokenNum: array<int>)
    requires BatchOk(rows, pars, d) && predicts.Length == TableAt(|rows|, d)
    requires |accept| == acceptTokenNum.Length == |rows| && predicts != acceptTokenNum
    requires forall b :: 0 <= b < |rows| ==> accept[b] != predicts && accept[b] != acceptTokenNum
    requires forall b, c :: 0 <= b < c < |rows| ==> accept[b] != accept[c]
    requires forall b, i :: 0 <= b < |rows| && 0 <= i < d ==> Depth(pars[b], i) < accept[b].Length
    modifies predicts, acceptTokenNum, set b | 0 <= b < |rows| :: accept[b]
    ensures AllPredicted(rows, pars, d, |rows|, old(predicts[..]), predicts[..])
    ensures forall b :: 0 <= b < |rows| ==>
              && acceptTokenNum[b] == |PathOf(rows, pars, d, b)| - 1
              && AcceptedRow(old(accept[b][..]), accept[b][..], TableAt(b, d), PathOf(rows, pars, d, b))
  {
    var bx := 0;
    while bx < |rows|
      invariant bx <= |rows|
      invariant AllPredicted(rows, pars, d, bx, old(predicts[..]), predicts[..])
      invariant forall b :: 0 <= b < bx ==>
                  && acceptTokenNum[b] == |PathOf(rows, pars, d, b)| - 1
                  && AcceptedRow(old(accept[b][..]), accept[b][..], TableAt(b, d), PathOf(rows, pars, d, b))
      invariant forall b :: bx <= b < |rows| ==> accept[b][..] == old(accept[b][..])
    {
      var numAccepted := VerifyRequest(rows, pars, d, bx, predicts, accept[bx], old(predicts[..]));
      acceptTokenNum[bx] := numAccepted;
      bx := bx + 1;
    }
  }

  // The short cut for two draft tokens and topk 1: the second token is accepted exactly when it is the
  // target at the root. The accepted index is -1 where the general way leaves the row as it was, and all
  // targets become predictions; on the accepted way both agree.
  method VerifyTwo(r: Row, base: nat) returns (accept: seq<int>, num: nat, predicts: seq<int>)
    requires RowOk(r, [0, 0], base, 2)
    ensures var path := Accepted([0, 0], r.tokens, r.target, 0);
            && num == |path| - 1 && |accept| == |predicts| == 2
            && (forall k :: 0 <= k < 2 ==> accept[k] == if k < |path| then base + path[k] else -1)
            && forall i :: 0 <= i < 2 && i in path ==> predicts[i] == r.target[i]
  {
    var comparison := if r.tokens[1] == r.target[0] then 1 else 0;
    predicts := r.target;
    var mask := (base + 1) * comparison;
    accept := [base, mask - (1 - comparison)];
    num := comparison;
    TwoPath(r, base);
  }

  lemma TwoPath(r: Row, base: nat)
    requires RowOk(r, [0, 0], base, 2)
    ensures Accepted([0, 0], r.tokens, r.target, 0) == if r.tokens[1] == r.target[0] then [0, 1] else [0]
  {
    var par: seq<nat> := [0, 0];
    assert forall x :: FirstMatch(par, r.tokens, x, 0, 2) == -1 && FirstMatch(par, r.tokens, x, 1, 2) == -1;
    assert forall x :: FirstMatch(par, r.tokens, x, 1, 1) == -1;
    assert FirstMatch(par, r.tokens, r.target[0], 0, 1) == if r.tokens[1] == r.target[0] then 1 else -1;
    assert Accepted(par, r.tokens, r.target, 1) == [1];
  }
}
