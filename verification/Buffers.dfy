/** Rows written into flat buffers. */
module Buffers {

  // s with `row` written from place `at` on.
  function Patch<T>(s: seq<T>, at: nat, row: seq<T>): (r: seq<T>)
    requires at + |row| <= |s|
    ensures |r| == |s|
    ensures forall k :: 0 <= k < |s| ==> r[k] == if at <= k < at + |row| then row[k - at] else s[k]
  {
    s[..at] + row + s[at + |row|..]
  }

  // The n elements of s from place `at` on.
  function Cut<T>(s: seq<T>, at: nat, n: nat): (r: seq<T>)
    requires at + n <= |s|
    ensures |r| == n && forall k :: 0 <= k < n ==> r[k] == s[at + k]
  {
    s[at..at + n]
  }

  // A bulk copy of one row into a buffer.
  method DataCopy<T>(a: array<T>, at: nat, row: seq<T>)
    requires at + |row| <= a.Length
    modifies a
    ensures a[..] == Patch(old(a[..]), at, row)
  {
    forall k | 0 <= k < |row| {
      a[at + k] := row[k];
    }
  }

  datatype Write<T> = Write(at: nat, row: seq<T>)
  {
    function End(): nat {
      at + |row|
    }

    predicate Covers(k: nat) {
      at <= k < End()
    }
  }

  ghost predicate AllFit<T>(size: nat, ws: seq<Write<T>>) {
    forall i :: 0 <= i < |ws| ==> ws[i].End() <= size
  }

  // No two writes touch.
  ghost predicate Apart<T>(ws: seq<Write<T>>) {
    forall i, j :: 0 <= i < j < |ws| ==> ws[i].End() <= ws[j].at || ws[j].End() <= ws[i].at
  }

  // Each write lies behind the one before.
  ghost predicate InOrder<T>(ws: seq<Write<T>>) {
    forall i, j :: 0 <= i < j < |ws| ==> ws[i].End() <= ws[j].at
  }

  // All writes lie between places lo and hi.
  ghost predicate Between<T>(ws: seq<Write<T>>, lo: nat, hi: nat) {
    forall i :: 0 <= i < |ws| ==> lo <= ws[i].at && ws[i].End() <= hi
  }

  lemma OrderJoins<T>(a: seq<Write<T>>, b: seq<Write<T>>, lo: nat, mid: nat, hi: nat)
    requires InOrder(a) && InOrder(b) && Between(a, lo, mid) && Between(b, mid, hi) && lo <= mid <= hi
    ensures InOrder(a + b) && Between(a + b, lo, hi)
  {
    forall i, j | 0 <= i < j < |a + b|
      ensures (a + b)[i].End() <= (a + b)[j].at
    {
      if i < |a| <= j {
        assert a[i].End() <= mid <= b[j - |a|].at;
      }
    }
  }

  // s after a list of writes.
  ghost function PutAll<T>(s: seq<T>, ws: seq<Write<T>>): (r: seq<T>)
    requires AllFit(|s|, ws)
    ensures |r| == |s|
  {
    if ws == [] then s
    else
      var n := |ws| - 1;
      assert ws[n].End() <= |s|;
      Patch(PutAll(s, ws[..n]), ws[n].at, ws[n].row)
  }

  lemma PutOne<T>(s: seq<T>, ws: seq<Write<T>>, w: Write<T>)
    requires AllFit(|s|, ws) && w.End() <= |s|
    ensures AllFit(|s|, ws + [w]) && PutAll(s, ws + [w]) == Patch(PutAll(s, ws), w.at, w.row)
  {
    assert (ws + [w])[..|ws|] == ws;
  }

  lemma {:induction false} PutAllJoins<T>(s: seq<T>, a: seq<Write<T>>, b: seq<Write<T>>)
    requires AllFit(|s|, a) && AllFit(|s|, b)
    ensures AllFit(|s|, a + b) && PutAll(s, a + b) == PutAll(PutAll(s, a), b)
  {
    if b == [] {
      assert a + b == a;
    } else {
      var n := |b| - 1;
      PutAllJoins(s, a, b[..n]);
      assert b[n].End() <= |s|;
      LastWrite(a, b);
      PutOne(s, a + b[..n], b[n]);
    }
  }

  lemma LastWrite<T>(a: seq<Write<T>>, b: seq<Write<T>>)
    requires b != []
    ensures a + b == a + b[..|b| - 1] + [b[|b| - 1]]
  {
  }

  // Writes that do not touch do not disturb each other: each stands.
  lemma {:induction false} WritesStand<T>(s: seq<T>, ws: seq<Write<T>>, i: nat, k: nat)
    requires AllFit(|s|, ws) && Apart(ws) && i < |ws| && k < |ws[i].row|
    ensures ws[i].at + k < |s| && PutAll(s, ws)[ws[i].at + k] == ws[i].row[k]
  {
    var n := |ws| - 1;
    assert ws[n].End() <= |s|;
    if i < n {
      WritesStand(s, ws[..n], i, k);
      assert ws[..n][i] == ws[i] && (ws[i].End() <= ws[n].at || ws[n].End() <= ws[i].at);
    }
  }

  lemma WriteStands<T>(s: seq<T>, ws: seq<Write<T>>, i: nat, w: Write<T>, k: nat)
    requires AllFit(|s|, ws) && Apart(ws) && i < |ws| && ws[i] == w && k < |w.row|
    ensures w.at + k < |s| && PutAll(s, ws)[w.at + k] == w.row[k]
  {
    WritesStand(s, ws, i, k);
  }

  // What no write covers stays as it was.
  lemma {:induction false} RestStays<T>(s: seq<T>, ws: seq<Write<T>>, k: nat)
    requires AllFit(|s|, ws) && k < |s| && forall i :: 0 <= i < |ws| ==> !ws[i].Covers(k)
    ensures PutAll(s, ws)[k] == s[k]
  {
    if ws != [] {
      var n := |ws| - 1;
      RestStays(s, ws[..n], k);
      assert !ws[n].Covers(k) && ws[n].End() <= |s|;
    }
  }

  // A state after steps lo .. hi.
  ghost function Iterate<S>(step: (S, nat) -> S, s: S, lo: nat, hi: nat): S
    decreases hi
  {
    if hi <= lo then s else step(Iterate(step, s, lo, hi - 1), hi - 1)
  }

  // Row b of a d-column table.
  function TableAt(b: nat, d: nat): nat
  {
    NonNegative(b, d);
    b * d
  }

  lemma NonNegative(b: nat, d: nat)
    ensures b * d >= 0
  {
  }
}
