/** Sums over lanes: reducing a vector in stages, and tile by tile. */
module SgmvReduce {

  function Sum(s: seq<int>): int {
    if s == [] then 0 else Sum(s[..|s| - 1]) + s[|s| - 1]
  }

  // The sums of consecutive groups of r lanes; an incomplete group is dropped.
  function Reduce(r: nat, s: seq<int>): (t: seq<int>)
    requires r > 0
    decreases |s|
  {
    if |s| < r then [] else [Sum(s[..r])] + Reduce(r, s[r..])
  }

  lemma {:induction false} SumJoins(a: seq<int>, b: seq<int>)
    ensures Sum(a + b) == Sum(a) + Sum(b)
  {
    if b == [] {
      assert a + b == a;
    } else {
      SumJoins(a, b[..|b| - 1]);
      assert (a + b)[..|a + b| - 1] == a + b[..|b| - 1];
    }
  }

  // n whole groups of r lanes.
  ghost predicate Groups(s: seq<int>, r: nat, n: nat)
    decreases n
  {
    if n == 0 then s == [] else |s| >= r && Groups(s[r..], r, n - 1)
  }

  lemma {:induction false} GroupsIff(s: seq<int>, r: nat, n: nat)
    ensures Groups(s, r, n) <==> |s| == n * r
    decreases n
  {
    if n > 0 && |s| >= r {
      GroupsIff(s[r..], r, n - 1);
      assert n * r == (n - 1) * r + r;
    } else if n > 0 {
      assert n * r == (n - 1) * r + r;
    }
  }

  lemma {:induction false} ReduceLength(r: nat, s: seq<int>, n: nat)
    requires r > 0 && Groups(s, r, n)
    ensures |Reduce(r, s)| == n
    decreases n
  {
    if n > 0 {
      ReduceLength(r, s[r..], n - 1);
    }
  }

  lemma {:induction false} ReduceJoins(r: nat, s: seq<int>, t: seq<int>, n: nat)
    requires r > 0 && Groups(s, r, n)
    ensures Reduce(r, s + t) == Reduce(r, s) + Reduce(r, t)
    decreases n
  {
    if n == 0 {
      assert s + t == t;
    } else {
      ReduceJoins(r, s[r..], t, n - 1);
      assert (s + t)[r..] == s[r..] + t && (s + t)[..r] == s[..r];
    }
  }

  // One group of a * b lanes, summed a at a time: b partial sums, of the same total.
  lemma {:induction false} GroupInStages(a: nat, b: nat, s: seq<int>)
    requires a > 0 && Groups(s, a, b)
    ensures |Reduce(a, s)| == b && Sum(Reduce(a, s)) == Sum(s)
    decreases b
  {
    if b > 0 {
      GroupInStages(a, b - 1, s[a..]);
      SumJoins([Sum(s[..a])], Reduce(a, s[a..]));
      SumJoins(s[..a], s[a..]);
      assert s == s[..a] + s[a..];
    }
  }

  // Summing a lanes at a time and then b of the sums is summing a * b lanes at a time.
  lemma {:induction false} ReduceInStages(a: nat, b: nat, s: seq<int>, n: nat)
    requires a > 0 && b > 0 && Groups(s, a * b, n)
    ensures a * b > 0 && Reduce(b, Reduce(a, s)) == Reduce(a * b, s)
    decreases n
  {
    Positive(a, b);
    if n == 0 {
      assert Reduce(a, s) == [];
    } else {
      var g, rest := s[..a * b], s[a * b..];
      ReduceInStages(a, b, rest, n - 1);
      GroupsIff(g, a, b);
      GroupInStages(a, b, g);
      ReduceJoins(a, g, rest, b);
      assert s == g + rest;
      OneGroup(b, Reduce(a, g), Reduce(a, rest));
    }
  }

  lemma Positive(a: nat, b: nat)
    requires a > 0 && b > 0
    ensures a * b > 0
  {
  }

  lemma OneGroup(b: nat, s: seq<int>, t: seq<int>)
    requires b > 0 && |s| == b
    ensures Reduce(b, s + t) == [Sum(s)] + Reduce(b, t)
  {
    assert (s + t)[..b] == s && (s + t)[b..] == t;
  }
}
