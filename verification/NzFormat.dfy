/** The NZ layout of a matrix: columns in groups of sixteen, each group stored row by row; both sides are padded to
    sixteen. */
module NzFormat {
  import opened Arith
  import opened Swizzle

  function RoundUp16(x: nat): nat {
    (x + 15) / 16 * 16
  }

  lemma RoundUpBounds(x: nat)
    ensures x <= RoundUp16(x) < x + 16 && RoundUp16(x) % 16 == 0
  {
  }

  // Place of an entry of a matrix with `height` rows.
  function NzPlace(row: nat, col: nat, height: nat): nat {
    MulOrder(0, col / 16, height * 16);
    col / 16 * (height * 16) + row * 16 + col % 16
  }

  // Column c of group g: behind the g groups before it, each of `height` rows of sixteen.
  lemma NzGroup(row: nat, g: nat, c: nat, height: nat)
    requires c < 16
    ensures NzPlace(row, g * 16 + c, height) == g * (height * 16) + row * 16 + c
  {
    DivModOfSum(g, 16, c);
  }

  lemma NzInside(row: nat, col: nat, height: nat, width: nat)
    requires row < height && col < width && width % 16 == 0
    ensures NzPlace(row, col, height) < height * width
  {
    var group := height * 16;
    assert row * 16 + col % 16 < group;
    MulOrder(col / 16, width / 16, group);
    MulAssoc(height, 16, width / 16);
    Commute(width / 16, group);
  }

  // Entries of a tile that starts at a whole group of columns lie as in the matrix itself.
  lemma NzTile(row0: nat, row: nat, col0: nat, col: nat, height: nat)
    requires col0 % 16 == 0
    ensures col0 * height >= 0
    ensures NzPlace(row0 + row, col0 + col, height) == row0 * 16 + col0 * height + NzPlace(row, col, height)
  {
    var group := height * 16;
    Distribute(col0 / 16, col / 16, group);
    Commute(16, height);
    MulAssoc(col0 / 16, 16, height);
    MulOrder(0, col0, height);
  }

  // Different entries have different places.
  lemma NzApart(row: nat, col: nat, row': nat, col': nat, height: nat)
    requires row < height && row' < height && NzPlace(row, col, height) == NzPlace(row', col', height)
    ensures row == row' && col == col'
  {
    var group, x, x' := height * 16, row * 16 + col % 16, row' * 16 + col' % 16;
    DivUnique(NzPlace(row, col, height), group, col / 16);
    DivUnique(NzPlace(row, col, height), group, col' / 16);
  }
}
