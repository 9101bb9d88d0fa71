/** The bits of a byte under the program's shifts and ors. */
module Bits {

  predicate ByteBit(x: bv8, k: nat)
    requires k < 8
  {
    (x >> k) & 1 == 1
  }

  lemma OrBit(x: bv8, y: bv8, j: nat)
    requires j < 8
    ensures ByteBit(x | y, j) <==> ByteBit(x, j) || ByteBit(y, j)
  {
    if j < 4 {
      if j < 2 { assert j == 0 || j == 1; } else { assert j == 2 || j == 3; }
    } else {
      if j < 6 { assert j == 4 || j == 5; } else { assert j == 6 || j == 7; }
    }
  }

  lemma OneBit(k: nat, j: nat)
    requires k < 8 && j < 8
    ensures ByteBit(1 << k, j) <==> j == k
  {
    assert j == 0 || j == 1 || j == 2 || j == 3 || j == 4 || j == 5 || j == 6 || j == 7;
    assert k == 0 || k == 1 || k == 2 || k == 3 || k == 4 || k == 5 || k == 6 || k == 7;
  }

  lemma ZeroBit(j: nat)
    requires j < 8
    ensures !ByteBit(0, j)
  {
    assert j == 0 || j == 1 || j == 2 || j == 3 || j == 4 || j == 5 || j == 6 || j == 7;
  }

  function Shl(x: bv8, s: nat): bv8
    requires s < 8
  {
    x << s
  }

  function Shr(x: bv8, s: nat): bv8
    requires s < 8
  {
    x >> s
  }

  lemma ShlBit(x: bv8, s: nat, j: nat)
    requires 0 < s < 8 && j < 8
    ensures ByteBit(Shl(x, s), j) <==> j >= s && ByteBit(x, j - s)
  {
    assert j == 0 || j == 1 || j == 2 || j == 3 || j == 4 || j == 5 || j == 6 || j == 7;
    assert s == 1 || s == 2 || s == 3 || s == 4 || s == 5 || s == 6 || s == 7;
  }

  lemma ShrBit(x: bv8, s: nat, j: nat)
    requires 0 < s < 8 && j < 8
    ensures ByteBit(Shr(x, s), j) <==> j + s < 8 && ByteBit(x, j + s)
  {
    assert j == 0 || j == 1 || j == 2 || j == 3 || j == 4 || j == 5 || j == 6 || j == 7;
    assert s == 1 || s == 2 || s == 3 || s == 4 || s == 5 || s == 6 || s == 7;
  }

  lemma ShrZero(s: nat)
    requires 0 < s < 8
    ensures Shr(0, s) == 0
  {
    assert s == 1 || s == 2 || s == 3 || s == 4 || s == 5 || s == 6 || s == 7;
  }
}
