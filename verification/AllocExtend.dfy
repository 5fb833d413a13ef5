/** Extending the page lists of a batch of requests: which cache slot every new token gets. */
module AllocExtend {
  import opened Arith
  import opened Buffers
  import opened Swizzle

  // Request r holds preLens[r] tokens, the last at slot lastLoc[r], and is to hold seqLens[r].
  datatype Batch = Batch(pageSize: nat, preLens: seq<nat>, seqLens: seq<nat>, lastLoc: seq<int>, freePages: seq<int>)
  {
    predicate Ok() {
      && pageSize > 0 && |preLens| == |seqLens| == |lastLoc|
      && (forall r :: 0 <= r < |preLens| ==> preLens[r] <= seqLens[r])
    }

    function Pages(x: nat): (k: nat)
      requires pageSize > 0
    {
      CeilDiv(x, pageSize)
    }

    function NewTokens(r: nat): nat
      requires Ok() && r < |preLens|
    {
      seqLens[r] - preLens[r]
    }

    function NewPages(r: nat): (k: nat)
      requires Ok() && r < |preLens|
    {
      PagesGrow(pageSize, preLens[r], seqLens[r]);
      Pages(seqLens[r]) - Pages(preLens[r])
    }

    // New tokens, and new pages, of the requests before r.
    function OutStart(r: nat): nat
      requires Ok() && r <= |preLens|
    {
      if r == 0 then 0 else OutStart(r - 1) + NewTokens(r - 1)
    }

    function PageStart(r: nat): nat
      requires Ok() && r <= |preLens|
    {
      if r == 0 then 0 else PageStart(r - 1) + NewPages(r - 1)
    }

    ghost predicate Valid() {
      Ok() && PageStart(|preLens|) <= |freePages|
    }

    // End of the page that the request had begun.
    function OldEnd(r: nat): nat
      requires Ok() && r < |preLens|
    {
      NonNegative(Pages(preLens[r]), pageSize);
      Pages(preLens[r]) * pageSize
    }

    // The free page that the token at position p goes to.
    function PageIndex(r: nat, p: nat): (k: nat)
      requires Valid() && r < |preLens| && OldEnd(r) <= p < seqLens[r]
      ensures k < |freePages|
    {
      NewPageFits(this, r, p);
      PageStart(r) + (p / pageSize - Pages(preLens[r]))
    }

    // The slot of the token at position p: next to the last one in the page already begun, or in the new
    // page for p.
    function Slot(r: nat, p: nat): int
      requires Valid() && r < |preLens| && preLens[r] <= p < seqLens[r]
    {
      if p < OldEnd(r) then lastLoc[r] + 1 + (p - preLens[r])
      else freePages[PageIndex(r, p)] * pageSize + p % pageSize
    }

    function Row(r: nat): (s: seq<int>)
      requires Valid() && r < |preLens|
      ensures |s| == NewTokens(r)
    {
      seq(NewTokens(r), i requires 0 <= i < NewTokens(r) => Slot(r, preLens[r] + i))
    }
  }

  lemma PagesGrow(pageSize: nat, a: nat, b: nat)
    requires pageSize > 0 && a <= b
    ensures CeilDiv(a, pageSize) <= CeilDiv(b, pageSize)
  {
    if CeilDiv(a, pageSize) > 0 {
      CeilDivGalois(a, pageSize, CeilDiv(a, pageSize) - 1);
      CeilDivGalois(b, pageSize, CeilDiv(a, pageSize) - 1);
    }
  }

  // A token behind the old page lies in one of the request's new pages.
  lemma NewPageFits(x: Batch, r: nat, p: nat)
    requires x.Valid() && r < |x.preLens| && x.OldEnd(r) <= p < x.seqLens[r]
    ensures 0 <= p / x.pageSize - x.Pages(x.preLens[r]) < x.NewPages(r)
    ensures x.PageStart(r) + x.NewPages(r) <= |x.freePages|
  {
    QuotientBelow2(p, x.pageSize, x.Pages(x.preLens[r]), x.seqLens[r]);
    PageStartGrows(x, r + 1, |x.preLens|);
  }

  // The quotient of a number between a * P and b lies between a and the ceiling of b.
  lemma QuotientBelow2(p: nat, P: nat, a: nat, b: nat)
    requires P > 0 && a * P <= p < b
    ensures a <= p / P < CeilDiv(b, P)
  {
    DivBounds(p, P);
    MulOrder(p / P + 1, a, P);
    Distribute(p / P, 1, P);
    CeilDivGalois(b, P, p / P);
  }

  lemma {:induction false} PageStartGrows(x: Batch, r: nat, n: nat)
    requires x.Ok() && r <= n <= |x.preLens|
    ensures x.PageStart(r) <= x.PageStart(n) && x.OutStart(r) <= x.OutStart(n)
    decreases n
  {
    if r < n {
      PageStartGrows(x, r, n - 1);
    }
  }

  // ----- what the slots are -----

  // The last slot of a request fits its length: it is the place before the next token in the same page.
  ghost predicate LastLocFits(x: Batch, r: nat)
    requires x.Ok() && r < |x.preLens|
  {
    x.preLens[r] % x.pageSize != 0 && x.NewTokens(r) > 0 ==> (x.lastLoc[r] + 1) % x.pageSize == x.preLens[r] % x.pageSize
  }

  ghost function PageOf(x: Batch, r: nat, p: nat): int
    requires x.Valid() && r < |x.preLens| && x.preLens[r] <= p < x.seqLens[r]
  {
    if p < x.OldEnd(r) then x.lastLoc[r] / x.pageSize else x.freePages[x.PageIndex(r, p)]
  }

  // A token in the page already begun: the page of the last token, at the token's place in it.
  lemma OldPage(P: nat, pre: nat, end: nat, last: int, p: nat)
    requires P > 0 && end == CeilDiv(pre, P) * P && pre <= p < end && (last + 1) % P == pre % P
    ensures pre % P != 0 && p / P == pre / P && last + 1 + (p - pre) == last / P * P + p % P
  {
    var c, q := CeilDiv(pre, P), pre / P;
    DivBounds(pre, P);
    DivModIs(pre, P);
    CeilDivGalois(pre, P, q);
    CeilDivGalois(pre, P, q + 1);
    Distribute(q, 1, P);
    MulOrder(c, q, P);
    MulOrder(c, q + 1, P);
    DivUnique(p, P, q);
    LastPlace(last, P);
  }

  lemma LastPlace(last: int, P: nat)
    requires P > 0 && (last + 1) % P != 0
    ensures last == last / P * P + (last + 1) % P - 1
  {
    var q, s := last / P, last % P;
    IntDivMod(last, P);
    if s + 1 < P {
      DivUnique(last + 1, P, q);
    } else {
      Distribute(q, 1, P);
      DivUnique(last + 1, P, q + 1);
    }
  }

  lemma IntDivMod(a: int, b: nat)
    requires b > 0
    ensures a == a / b * b + a % b && 0 <= a % b < b
  {
  }

  // Every slot is the token's place in a page.
  lemma SlotInPage(x: Batch, r: nat, p: nat)
    requires x.Valid() && r < |x.preLens| && x.preLens[r] <= p < x.seqLens[r] && LastLocFits(x, r)
    ensures x.Slot(r, p) == PageOf(x, r, p) * x.pageSize + p % x.pageSize
    ensures p < x.OldEnd(r) ==> p / x.pageSize == x.preLens[r] / x.pageSize
  {
    if p < x.OldEnd(r) {
      BegunPage(x.preLens[r], x.pageSize);
      OldPage(x.pageSize, x.preLens[r], x.OldEnd(r), x.lastLoc[r], p);
    }
  }

  lemma BegunPage(pre: nat, P: nat)
    requires P > 0 && pre < CeilDiv(pre, P) * P
    ensures pre % P != 0
  {
    DivModIs(pre, P);
    if pre % P == 0 {
      CeilDivGalois(pre, P, pre / P);
      MulOrder(CeilDiv(pre, P), pre / P, P);
    }
  }

  // A slot agrees with its logical position modulo the page size.
  lemma SlotCongruent(x: Batch, r: nat, p: nat)
    requires x.Valid() && r < |x.preLens| && x.preLens[r] <= p < x.seqLens[r] && LastLocFits(x, r)
    ensures x.Slot(r, p) % x.pageSize == p % x.pageSize
    ensures x.Slot(r, p) / x.pageSize == PageOf(x, r, p)
  {
    SlotInPage(x, r, p);
    DivModIs(p, x.pageSize);
    DivUnique(x.Slot(r, p), x.pageSize, PageOf(x, r, p));
  }

  // The free pages are distinct, and none is the begun page of a request that goes on in it; no two
  // requests go on in the same page.
  ghost predicate PagesApart(x: Batch)
    requires x.Valid()
  {
    && (forall i, j :: 0 <= i < j < |x.freePages| ==> x.freePages[i] != x.freePages[j])
    && (forall r :: 0 <= r < |x.preLens| && GoesOn(x, r) ==> x.lastLoc[r] / x.pageSize !in x.freePages)
    && forall r, q :: 0 <= r < q < |x.preLens| && GoesOn(x, r) && GoesOn(x, q) ==>
         x.lastLoc[r] / x.pageSize != x.lastLoc[q] / x.pageSize
  }

  ghost predicate GoesOn(x: Batch, r: nat)
    requires x.Ok() && r < |x.preLens|
  {
    x.preLens[r] < x.seqLens[r] && x.preLens[r] < x.OldEnd(r)
  }

  // Tokens in one page belong to one request and have one page number.
  lemma SamePage(x: Batch, r: nat, p: nat, q: nat, o: nat)
    requires x.Valid() && PagesApart(x) && forall r :: 0 <= r < |x.preLens| ==> LastLocFits(x, r)
    requires r < |x.preLens| && x.preLens[r] <= p < x.seqLens[r]
    requires q < |x.preLens| && x.preLens[q] <= o < x.seqLens[q]
    requires PageOf(x, r, p) == PageOf(x, q, o)
    ensures r == q && p / x.pageSize == o / x.pageSize
  {
    SlotInPage(x, r, p);
    SlotInPage(x, q, o);
    if p < x.OldEnd(r) {
      assert GoesOn(x, r);
    }
    if o < x.OldEnd(q) {
      assert GoesOn(x, q);
    }
    if p >= x.OldEnd(r) && o >= x.OldEnd(q) {
      SamePageIndex(x, r, p, q, o);
    }
  }

  lemma SamePageIndex(x: Batch, r: nat, p: nat, q: nat, o: nat)
    requires x.Valid() && r < |x.preLens| && q < |x.preLens|
    requires x.OldEnd(r) <= p < x.seqLens[r] && x.OldEnd(q) <= o < x.seqLens[q]
    requires x.PageIndex(r, p) == x.PageIndex(q, o)
    ensures r == q && p / x.pageSize == o / x.pageSize
  {
    NewPageFits(x, r, p);
    NewPageFits(x, q, o);
    if r < q {
      PageStartGrows(x, r + 1, q);
    } else if q < r {
      PageStartGrows(x, q + 1, r);
    }
  }

  // No two tokens of the batch share a slot.
  lemma SlotsDistinct(x: Batch, r: nat, p: nat, q: nat, o: nat)
    requires x.Valid() && PagesApart(x) && forall r :: 0 <= r < |x.preLens| ==> LastLocFits(x, r)
    requires r < |x.preLens| && x.preLens[r] <= p < x.seqLens[r]
    requires q < |x.preLens| && x.preLens[q] <= o < x.seqLens[q]
    requires x.Slot(r, p) == x.Slot(q, o)
    ensures r == q && p == o
  {
    SlotCongruent(x, r, p);
    SlotCongruent(x, q, o);
    SamePage(x, r, p, q, o);
    DivModIs(p, x.pageSize);
    DivModIs(o, x.pageSize);
  }

  // Every free page up to the total is used: by a token of exactly one request.
  lemma PageIsUsed(x: Batch, k: nat) returns (r: nat, p: nat)
    requires x.Valid() && k < x.PageStart(|x.preLens|)
    ensures r < |x.preLens| && x.PageStart(r) <= k < x.PageStart(r + 1)
    ensures x.OldEnd(r) <= p < x.seqLens[r] && x.PageIndex(r, p) == k
  {
    r := FindOwner(x, k, |x.preLens|);
    var page := x.Pages(x.preLens[r]) + (k - x.PageStart(r));
    CeilDivGalois(x.seqLens[r], x.pageSize, page);
    MulOrder(x.Pages(x.preLens[r]), page, x.pageSize);
    DivModOfSum(page, x.pageSize, 0);
    p := page * x.pageSize;
  }

  lemma {:induction false} FindOwner(x: Batch, k: nat, n: nat) returns (r: nat)
    requires x.Ok() && n <= |x.preLens| && k < x.PageStart(n)
    ensures r < n && x.PageStart(r) <= k < x.PageStart(r + 1)
  {
    if k >= x.PageStart(n - 1) {
      r := n - 1;
    } else {
      r := FindOwner(x, k, n - 1);
    }
  }

  // No token uses a page behind the total.
  lemma OnlyThosePages(x: Batch, r: nat, p: nat)
    requires x.Valid() && r < |x.preLens| && x.OldEnd(r) <= p < x.seqLens[r]
    ensures x.PageStart(r) <= x.PageIndex(r, p) < x.PageStart(r + 1) <= x.PageStart(|x.preLens|)
  {
    NewPageFits(x, r, p);
    PageStartGrows(x, r + 1, |x.preLens|);
  }
}
