/** The order in which a ring of cores serves rows that are dealt out in turn, when some rows are idle: the turn goes
    from core to core, and each core takes the next of its busy rows. */
module ServiceOrder {
  import opened Arith
  import opened Swizzle

  // Busy rows of core k among the first n.
  function Turns(c: nat, k: nat, busy: seq<bool>, n: nat): nat
    requires c > 0 && n <= |busy|
  {
    if n == 0 then 0 else Turns(c, k, busy, n - 1) + if (n - 1) % c == k && busy[n - 1] then 1 else 0
  }

  // Busy rows among the first n.
  function Total(busy: seq<bool>, n: nat): (t: nat)
    requires n <= |busy|
    ensures t <= n
  {
    if n == 0 then 0 else Total(busy, n - 1) + if busy[n - 1] then 1 else 0
  }

  // Turns of core k when `turns` of them go round.
  function Share(c: nat, k: nat, turns: nat): nat
    requires c > 0
  {
    Turns(c, k, seq(turns, i => true), turns)
  }

  // The turn that the next busy row of core k gets, after the first n rows.
  function Slot(c: nat, k: nat, busy: seq<bool>, n: nat): nat
    requires c > 0 && n <= |busy|
  {
    if n == 0 then k else Slot(c, k, busy, n - 1) + if (n - 1) % c == k && busy[n - 1] then c else 0
  }

  // The turn of row r.
  function Pos(c: nat, busy: seq<bool>, r: nat): (p: nat)
    requires c > 0 && r < |busy|
  {
    DivModIs(r, c);
    Slot(c, r % c, busy, r)
  }

  lemma {:induction false} SlotIs(c: nat, k: nat, busy: seq<bool>, n: nat)
    requires c > 0 && n <= |busy|
    ensures Slot(c, k, busy, n) == Turns(c, k, busy, n) * c + k
  {
    if n > 0 {
      SlotIs(c, k, busy, n - 1);
      Distribute(Turns(c, k, busy, n - 1), 1, c);
    }
  }

  lemma SlotCore(c: nat, k: nat, busy: seq<bool>, n: nat)
    requires k < c && n <= |busy|
    ensures Slot(c, k, busy, n) % c == k
  {
    SlotIs(c, k, busy, n);
    DivModOfSum(Turns(c, k, busy, n), c, k);
  }

  lemma PosCore(c: nat, busy: seq<bool>, r: nat)
    requires c > 0 && r < |busy|
    ensures Pos(c, busy, r) % c == r % c
  {
    DivModIs(r, c);
    SlotCore(c, r % c, busy, r);
  }

  // A busy row of the core moves the slot on.
  lemma {:induction false} SlotRises(c: nat, k: nat, busy: seq<bool>, m: nat, n: nat)
    requires c > 0 && m <= n <= |busy|
    ensures Slot(c, k, busy, m) <= Slot(c, k, busy, n)
    ensures m < n && m % c == k && busy[m] ==> Slot(c, k, busy, m) + c <= Slot(c, k, busy, n)
    decreases n
  {
    if m < n {
      SlotRises(c, k, busy, m, n - 1);
    }
  }

  lemma PosRises(c: nat, busy: seq<bool>, p: nat, r: nat)
    requires c > 0 && p < r < |busy| && busy[p] && p % c == r % c
    ensures Pos(c, busy, p) + c <= Pos(c, busy, r)
  {
    SlotRises(c, p % c, busy, p, r);
  }

  lemma PosDiffers(c: nat, busy: seq<bool>, p: nat, r: nat)
    requires c > 0 && p < |busy| && r < |busy| && busy[p] && busy[r] && Pos(c, busy, p) == Pos(c, busy, r)
    ensures p == r
  {
    PosCore(c, busy, p);
    PosCore(c, busy, r);
    if p < r {
      PosRises(c, busy, p, r);
    } else if r < p {
      PosRises(c, busy, r, p);
    }
  }

  // Every turn of the core below its slot belongs to a busy row.
  lemma {:induction false} FindTurn(c: nat, k: nat, busy: seq<bool>, n: nat, v: nat) returns (p: nat)
    requires k < c && n <= |busy| && v % c == k && v < Slot(c, k, busy, n)
    ensures p < n && p % c == k && busy[p] && Pos(c, busy, p) == v
  {
    Below(v, c);
    if v < Slot(c, k, busy, n - 1) {
      p := FindTurn(c, k, busy, n - 1, v);
    } else {
      p := n - 1;
      SlotCore(c, k, busy, n - 1);
      CloseRemainder(c, Slot(c, k, busy, n - 1), v);
    }
  }

  lemma Below(v: nat, c: nat)
    requires c > 0
    ensures v % c <= v
  {
    DivModIs(v, c);
    MulOrder(0, v / c, c);
  }

  // Two numbers with the same remainder are a multiple apart.
  lemma SameRemainder(c: nat, a: nat, b: nat)
    requires c > 0 && a < b && a % c == b % c
    ensures a + c <= b
  {
    DivModIs(a, c);
    DivModIs(b, c);
    MulOrder(a / c, b / c, c);
    MulOrder(b / c, a / c, c);
  }

  lemma CloseRemainder(c: nat, a: nat, b: nat)
    requires c > 0 && a <= b < a + c && a % c == b % c
    ensures a == b
  {
    if a < b {
      SameRemainder(c, a, b);
    }
  }

  lemma NextRemainder(c: nat, a: nat, b: nat)
    requires c > 0
    ensures a % c == b % c <==> (a + 1) % c == (b + 1) % c
  {
    StepUp(c, a);
    StepUp(c, b);
    DivModIs(a, c);
    DivModIs(b, c);
  }

  lemma StepUp(c: nat, a: nat)
    requires c > 0
    ensures (a + 1) % c == if a % c == c - 1 then 0 else a % c + 1
  {
    DivModIs(a, c);
    if a % c == c - 1 {
      Distribute(a / c, 1, c);
      DivModOfSum(a / c + 1, c, 0);
    } else {
      DivModOfSum(a / c, c, a % c + 1);
    }
  }

  // ----- when no row is idle -----

  lemma {:induction false} SlotOfAll(c: nat, k: nat, busy: seq<bool>, n: nat)
    requires k < c && n <= |busy| && forall i :: 0 <= i < n ==> busy[i]
    ensures n <= Slot(c, k, busy, n) < n + c
  {
    if n > 0 {
      SlotOfAll(c, k, busy, n - 1);
      SlotCore(c, k, busy, n - 1);
      if Slot(c, k, busy, n - 1) != n - 1 && (n - 1) % c == k {
        SameRemainder(c, n - 1, Slot(c, k, busy, n - 1));
      }
    }
  }

  // Rows are served as they come.
  lemma PosOfAll(c: nat, busy: seq<bool>, r: nat)
    requires c > 0 && r < |busy| && forall i :: 0 <= i < r ==> busy[i]
    ensures Pos(c, busy, r) == r
  {
    DivModIs(r, c);
    SlotOfAll(c, r % c, busy, r);
    PosCore(c, busy, r);
    if r < Pos(c, busy, r) {
      SameRemainder(c, r, Pos(c, busy, r));
    }
  }

  // ----- slots and shares -----

  // A core has its share of the turns exactly when its slot is within a round behind them.
  lemma ShareIsSlot(c: nat, k: nat, busy: seq<bool>, n: nat, turns: nat)
    requires k < c && n <= |busy|
    ensures Turns(c, k, busy, n) == Share(c, k, turns) <==> turns <= Slot(c, k, busy, n) < turns + c
  {
    var all := seq(turns, i => true);
    SlotOfAll(c, k, all, turns);
    SlotIs(c, k, all, turns);
    SlotIs(c, k, busy, n);
    var a, b := Slot(c, k, busy, n), Slot(c, k, all, turns);
    if turns <= a < turns + c {
      SlotCore(c, k, busy, n);
      SlotCore(c, k, all, turns);
      if a < b {
        SameRemainder(c, a, b);
      } else if b < a {
        SameRemainder(c, b, a);
      }
      MulOrder(Turns(c, k, busy, n), Share(c, k, turns), c);
      MulOrder(Share(c, k, turns), Turns(c, k, busy, n), c);
    }
  }

  function TurnsBelow(c: nat, m: nat, busy: seq<bool>, n: nat): nat
    requires c > 0 && n <= |busy|
  {
    if m == 0 then 0 else TurnsBelow(c, m - 1, busy, n) + Turns(c, m - 1, busy, n)
  }

  lemma {:induction false} OneMoreRow(c: nat, m: nat, busy: seq<bool>, n: nat)
    requires c > 0 && 0 < n <= |busy|
    ensures TurnsBelow(c, m, busy, n) == TurnsBelow(c, m, busy, n - 1) + if (n - 1) % c < m && busy[n - 1] then 1 else 0
  {
    DivModIs(n - 1, c);
    if m > 0 {
      OneMoreRow(c, m - 1, busy, n);
    }
  }

  lemma {:induction false} NoRows(c: nat, m: nat, busy: seq<bool>)
    requires c > 0
    ensures TurnsBelow(c, m, busy, 0) == 0
  {
    if m > 0 {
      NoRows(c, m - 1, busy);
    }
  }

  // The turns of all cores are the busy rows.
  lemma {:induction false} CoresAddUp(c: nat, busy: seq<bool>, n: nat)
    requires c > 0 && n <= |busy|
    ensures TurnsBelow(c, c, busy, n) == Total(busy, n)
  {
    if n == 0 {
      NoRows(c, c, busy);
    } else {
      CoresAddUp(c, busy, n - 1);
      OneMoreRow(c, c, busy, n);
      DivModIs(n - 1, c);
    }
  }

  lemma {:induction false} SameBelow(c: nat, m: nat, busy: seq<bool>, n: nat, turns: nat)
    requires m <= c && 0 < c && n <= |busy|
    requires forall k :: 0 <= k < c ==> Turns(c, k, busy, n) == Share(c, k, turns)
    ensures TurnsBelow(c, m, busy, n) == TurnsBelow(c, m, seq(turns, i => true), turns)
  {
    if m > 0 {
      SameBelow(c, m - 1, busy, n, turns);
      assert Turns(c, m - 1, busy, n) == Share(c, m - 1, turns);
    }
  }

  lemma {:induction false} TotalOfAll(busy: seq<bool>, n: nat)
    requires n <= |busy| && forall i :: 0 <= i < n ==> busy[i]
    ensures Total(busy, n) == n
  {
    if n > 0 {
      TotalOfAll(busy, n - 1);
    }
  }

  // If every core has its share of the turns, there are as many turns as busy rows.
  lemma SharesAddUp(c: nat, busy: seq<bool>, n: nat, turns: nat)
    requires c > 0 && n <= |busy|
    requires forall k :: 0 <= k < c ==> Turns(c, k, busy, n) == Share(c, k, turns)
    ensures turns == Total(busy, n)
  {
    var all := seq(turns, i => true);
    SameBelow(c, c, busy, n, turns);
    CoresAddUp(c, busy, n);
    CoresAddUp(c, all, turns);
    TotalOfAll(all, turns);
  }
}
