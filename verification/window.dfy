/**
 * Mat3x3l: a 3x3 window of resource amounts around a miner. Cell mXY covers the
 * tile at offset (X-1, Y-1) from the miner; m11 is the miner's own tile.
 */
module Window {

  datatype Mat3 = Mat3(m00: int, m01: int, m02: int,
                       m10: int, m11: int, m12: int,
                       m20: int, m21: int, m22: int)

  const Zero := Mat3(0, 0, 0, 0, 0, 0, 0, 0, 0)

  predicate InWindow(x: int, y: int) { 0 <= x < 3 && 0 <= y < 3 }

  /** The field mXY itself. */
  function At(m: Mat3, x: int, y: int): int
    requires InWindow(x, y)
  {
    if x == 0 then (if y == 0 then m.m00 else if y == 1 then m.m01 else m.m02)
    else if x == 1 then (if y == 0 then m.m10 else if y == 1 then m.m11 else m.m12)
    else (if y == 0 then m.m20 else if y == 1 then m.m21 else m.m22)
  }

  /** The cell assignment `m.mXY = v`. */
  function With(m: Mat3, x: int, y: int, v: int): Mat3
    requires InWindow(x, y)
  {
    if x == 0 then (if y == 0 then m.(m00 := v) else if y == 1 then m.(m01 := v) else m.(m02 := v))
    else if x == 1 then (if y == 0 then m.(m10 := v) else if y == 1 then m.(m11 := v) else m.(m12 := v))
    else (if y == 0 then m.(m20 := v) else if y == 1 then m.(m21 := v) else m.(m22 := v))
  }

  /** The inner `switch (y)` of column x of get; Miss when no case matches and control falls through. */
  function ColumnCase(m: Mat3, x: int, y: int): CaseResult
  {
    if x == 0 then (if y == 0 then Hit(m.m00) else if y == 1 then Hit(m.m01) else if y == 2 then Hit(m.m02) else Miss)
    else if x == 1 then (if y == 0 then Hit(m.m10) else if y == 1 then Hit(m.m11) else if y == 2 then Hit(m.m12) else Miss)
    else (if y == 0 then Hit(m.m20) else if y == 1 then Hit(m.m21) else if y == 2 then Hit(m.m22) else Miss)
  }

  datatype CaseResult = Hit(v: int) | Miss

  /** The cases from column `from` onwards, in the order Java's fall-through runs them. */
  function FallThrough(m: Mat3, from: int, y: int): int
    requires 0 <= from <= 3
    decreases 3 - from
  {
    if from == 3 then -1
    else match ColumnCase(m, from, y)
      case Hit(v) => v
      case Miss => FallThrough(m, from + 1, y)
  }

  /**
   * get(x, y): the outer switch enters at column x (0, 1 or 2) and, when the inner
   * switch on y matches nothing, falls through into the next columns; any other x
   * and the end of the fall-through give -1.
   */
  function Get(m: Mat3, x: int, y: int): (r: int)
    ensures InWindow(x, y) ==> r == At(m, x, y)
    ensures !InWindow(x, y) ==> r == -1
  {
    if 0 <= x < 3 then FallThrough(m, x, y) else -1
  }

  /** Reading a cell after assigning it gives the assigned value; other cells are untouched. */
  lemma GetWith(m: Mat3, x: int, y: int, v: int, x': int, y': int)
    requires InWindow(x, y) && InWindow(x', y')
    ensures Get(With(m, x, y, v), x', y') == if x == x' && y == y' then v else Get(m, x', y')
  {}

  /** Two windows are equal when every in-window read agrees. */
  lemma Extensionality(m: Mat3, n: Mat3)
    requires forall x, y :: InWindow(x, y) ==> Get(m, x, y) == Get(n, x, y)
    ensures m == n
  {
    assert Get(m, 0, 0) == Get(n, 0, 0) && Get(m, 0, 1) == Get(n, 0, 1) && Get(m, 0, 2) == Get(n, 0, 2);
    assert Get(m, 1, 0) == Get(n, 1, 0) && Get(m, 1, 1) == Get(n, 1, 1) && Get(m, 1, 2) == Get(n, 1, 2);
    assert Get(m, 2, 0) == Get(n, 2, 0) && Get(m, 2, 1) == Get(n, 2, 1) && Get(m, 2, 2) == Get(n, 2, 2);
  }

  function Pos(v: int): int { if v > 0 then 1 else 0 }

  /**
   * numPositive, as written: it tests m12 and m22 twice and never tests m10 or m20.
   */
  function NumPositive(m: Mat3): (r: int)
    ensures 0 <= r <= 9
  {
    Pos(m.m00) + Pos(m.m01) + Pos(m.m02) + Pos(m.m12) + Pos(m.m11)
      + Pos(m.m12) + Pos(m.m22) + Pos(m.m21) + Pos(m.m22)
  }

  /** The count of positive cells with each of the nine cells counted once. */
  function PositiveCells(m: Mat3): (r: int)
    ensures 0 <= r <= 9
  {
    Pos(m.m00) + Pos(m.m01) + Pos(m.m02) + Pos(m.m10) + Pos(m.m11)
      + Pos(m.m12) + Pos(m.m20) + Pos(m.m21) + Pos(m.m22)
  }

  /** How the written count departs from counting every cell once. */
  lemma NumPositiveWeights(m: Mat3)
    ensures NumPositive(m) == PositiveCells(m) + Pos(m.m12) + Pos(m.m22) - Pos(m.m10) - Pos(m.m20)
  {}

  /** m10 and m20 never affect the count. */
  lemma NumPositiveIgnoresBottomRow(m: Mat3, v10: int, v20: int)
    ensures NumPositive(m.(m10 := v10, m20 := v20)) == NumPositive(m)
  {}

  /** m12 (likewise m22) turning positive adds two. */
  lemma NumPositiveCountsTwice(m: Mat3, v: int)
    requires m.m12 <= 0 < v
    ensures NumPositive(m.(m12 := v)) == NumPositive(m) + 2
  {}

  /** Raising any cell never lowers the count. */
  lemma NumPositiveMonotone(m: Mat3, n: Mat3)
    requires forall x, y :: InWindow(x, y) ==> Get(m, x, y) <= Get(n, x, y)
    ensures NumPositive(m) <= NumPositive(n)
  {
    assert Get(m, 0, 0) <= Get(n, 0, 0) && Get(m, 0, 1) <= Get(n, 0, 1) && Get(m, 0, 2) <= Get(n, 0, 2);
    assert Get(m, 1, 1) <= Get(n, 1, 1) && Get(m, 1, 2) <= Get(n, 1, 2);
    assert Get(m, 2, 1) <= Get(n, 2, 1) && Get(m, 2, 2) <= Get(n, 2, 2);
  }

  /** Cell-wise sum, used to express a deduction as adding a fixed charge. */
  function Plus(m: Mat3, d: Mat3): (r: Mat3)
    ensures forall x, y :: InWindow(x, y) ==> Get(r, x, y) == Get(m, x, y) + Get(d, x, y)
  {
    Mat3(m.m00 + d.m00, m.m01 + d.m01, m.m02 + d.m02,
         m.m10 + d.m10, m.m11 + d.m11, m.m12 + d.m12,
         m.m20 + d.m20, m.m21 + d.m21, m.m22 + d.m22)
  }
}
