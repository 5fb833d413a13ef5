/** Integer helpers shared by the kernels: ceiling division and 32-bit wrap-around. */
module Arith {
  const U32_MOD: int := 0x1_0000_0000

  function U32(x: int): (r: nat)
    ensures r < U32_MOD
    ensures 0 <= x < U32_MOD ==> r == x
  {
    x % U32_MOD
  }

  function Min(a: int, b: int): int {
    if a > b then b else a
  }

  function Max(a: int, b: int): int {
    if a > b then a else b
  }

  function CeilDiv(a: nat, b: nat): nat {
    if b == 0 then 0 else (a + b - 1) / b
  }

  // q is the quotient of a by b exactly when q * b <= a < q * b + b.
  lemma DivBounds(a: nat, b: nat)
    requires b > 0
    ensures a / b * b <= a < a / b * b + b
  {
  }

  lemma {:induction false} MulOrder(x: int, y: int, b: nat)
    ensures x < y ==> x * b + b <= y * b
    ensures x <= y ==> x * b <= y * b
    decreases y - x
  {
    if x < y {
      MulOrder(x, y - 1, b);
      assert y * b == (y - 1) * b + b;
    }
  }

  lemma QuotientUnique(a: int, b: nat, q: int, q': int)
    requires q * b <= a < q * b + b && q' * b <= a < q' * b + b
    ensures q == q'
  {
    MulOrder(q', q, b);
    MulOrder(q, q', b);
  }

  lemma DivUnique(a: int, b: nat, q: int)
    requires b > 0
    requires q * b <= a < q * b + b
    ensures a / b == q && a % b == a - q * b
  {
    QuotientUnique(a, b, q, a / b);
  }

  // The defining property of the ceiling: k units of size b start before a.
  lemma CeilDivGalois(a: nat, b: nat, k: nat)
    requires b > 0
    ensures k < CeilDiv(a, b) <==> k * b < a
  {
    var c := CeilDiv(a, b);
    DivBounds(a + b - 1, b);
    assert c * b <= a + b - 1 < c * b + b;
    if k < c {
      assert (k + 1) * b <= c * b;
    } else {
      assert c * b <= k * b;
    }
  }

  // A ceiling is pinned by the two products around it.
  lemma CeilDivUnique(a: nat, b: nat, c: nat)
    requires b > 0
    requires c == 0 ==> a == 0
    requires c > 0 ==> (c - 1) * b < a <= c * b
    ensures CeilDiv(a, b) == c
  {
    CeilDivGalois(a, b, c);
    if c > 0 {
      CeilDivGalois(a, b, c - 1);
    }
  }

  // Division and remainder of q * b + r, for a remainder r in range.
  lemma DivModOfSum(q: nat, b: nat, r: nat)
    requires r < b
    ensures (q * b + r) / b == q && (q * b + r) % b == r
  {
    DivUnique(q * b + r, b, q);
  }
}
