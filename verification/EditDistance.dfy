/** `editDistance` (src/stms/util/compare.cpp): one rolling row of 32-bit cells. */
module EditDistance {
  import opened Basics
  import opened Levenshtein

  newtype Cell32 = x: int | 0 <= x < 0x1_0000_0000

  function MinCell(x: Cell32, y: Cell32): Cell32 {
    if y < x then y else x
  }

  /** Row `i`, column `j` of the table whose rolling row the loop keeps. */
  function Cell(rows: string, i: int, cols: string, j: int): nat
    requires 0 <= i <= |rows| && 0 <= j <= |cols|
  {
    Lev(rows[..i], cols[..j])
  }

  lemma {:induction false} CellRecurrence(rows: string, i: int, cols: string, j: int)
    requires 1 <= i <= |rows| && 1 <= j <= |cols|
    ensures rows[i - 1] == cols[j - 1] ==> Cell(rows, i, cols, j) == Cell(rows, i - 1, cols, j - 1)
    ensures rows[i - 1] != cols[j - 1] ==>
              Cell(rows, i, cols, j) ==
              Min(Min(Cell(rows, i - 1, cols, j - 1), Cell(rows, i, cols, j - 1)), Cell(rows, i - 1, cols, j)) + 1
    ensures Cell(rows, i, cols, j) <= if i < j then j else i
  {
    var a, b := rows[..i], cols[..j];
    assert Init(a) == rows[..i - 1] && Init(b) == cols[..j - 1];
    if Last(a) == Last(b) {
      DiagonalShortcut(a, b);
    }
    Bounds(a, b);
  }

  lemma {:induction false} CellEdges(rows: string, cols: string)
    ensures forall k :: 0 <= k <= |cols| ==> Cell(rows, 0, cols, k) == k
    ensures forall i :: 0 <= i <= |rows| ==> Cell(rows, i, cols, 0) == i
    ensures Cell(rows, |rows|, cols, |cols|) == Lev(rows, cols)
  {
    assert rows[..|rows|] == rows && cols[..|cols|] == cols;
  }

  /** The lengths are those for which the 32-bit loop counters can reach the end of the words;
      no cell overflows there, which the type `Cell32` makes a proof obligation. */
  method EditDistance(word1: string, word2: string) returns (ret: Cell32)
    requires |word1| < 0xFFFF_FFFF && |word2| < 0xFFFF_FFFF
    ensures IsEditDistance(ret as int, word1, word2)
  {
    hide Lev, Cell, IsEditDistance;
    var short, long := word2, word1;
    if |word1| < |word2| {
      short, long := word1, word2;
    }

    var cache := new Cell32[|short| + 1];
    var i: Cell32 := 0;
    while i as int < |short| + 1
      invariant 0 <= i as int <= |short| + 1
      invariant forall k :: 0 <= k < i as int ==> cache[k] as int == k
    {
      cache[i] := i;
      i := i + 1;
    }
    CellEdges(long, short);

    var tmp1, tmp2;
    i := 1;
    while i as int < |long| + 1
      invariant 1 <= i as int <= |long| + 1
      invariant forall k :: 0 <= k <= |short| ==> cache[k] as int == Cell(long, i as int - 1, short, k)
    {
      tmp1 := cache[0];
      cache[0] := i;
      var j: Cell32 := 1;
      while j as int < |short| + 1
        invariant 1 <= j as int <= |short| + 1
        invariant tmp1 as int == Cell(long, i as int - 1, short, j as int - 1)
        invariant forall k :: 0 <= k < j as int ==> cache[k] as int == Cell(long, i as int, short, k)
        invariant forall k :: j as int <= k <= |short| ==> cache[k] as int == Cell(long, i as int - 1, short, k)
      {
        CellRecurrence(long, i as int, short, j as int);
        if long[i - 1] == short[j - 1] {
          tmp2 := tmp1;
          tmp1 := cache[j];
          cache[j] := tmp2;
        } else {
          tmp2 := MinCell(MinCell(tmp1, cache[j - 1]), cache[j]) + 1;
          tmp1 := cache[j];
          cache[j] := tmp2;
        }
        j := j + 1;
      }
      i := i + 1;
    }

    ret := cache[|short|];
    Symmetric(word1, word2);
    LevIsEditDistance(word1, word2);
  }
}
