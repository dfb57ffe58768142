/**
 * A bitset over the largest possible map, one bit per cell, packed 64 cells to a
 * 64-bit word. Cell (x, y) is bit gridIdx % 64 of word gridIdx / 64, where
 * gridIdx = y * MAP_MAX_WIDTH + x. Java's truncating division and remainder, and
 * its masking of a long's shift distance to six bits, are written out, so the
 * model also says what happens to coordinates off the map: an index that lands
 * outside the word array throws, which is the None result here.
 */
module BooleanGrid {
  import opened Wrappers
  import opened Engine
  import Arith

  /** BITS_IN_BACKING_DATATYPE */
  const BitsPerWord: int := 64

  datatype Grid = Grid(words: seq<bv64>)

  /** The word count reset allocates: MAP_MAX_HEIGHT * MAP_MAX_WIDTH / 64, rounded up. */
  function Length(c: Consts): int
  {
    (c.mapMaxHeight * c.mapMaxWidth + BitsPerWord - 1) / BitsPerWord
  }

  predicate Valid(g: Grid, c: Consts)
  {
    |g.words| == Length(c)
  }

  /** Java's int division, which truncates toward zero. */
  function JavaDiv(a: int, b: int): int
    requires b > 0
  {
    if a >= 0 then a / b else -((-a) / b)
  }

  /** Java's int remainder, which takes the sign of the dividend. */
  function JavaRem(a: int, b: int): int
    requires b > 0
  {
    a - b * JavaDiv(a, b)
  }

  /** The distance a long is shifted by: Java uses only its low six bits. */
  function ShiftDistance(n: int): nat
  {
    n % 64
  }

  /** The word holding a cell and the bit within it; an element outside the array means the access throws. */
  function CellIndex(c: Consts, x: int, y: int): (r: (int, bv7))
    ensures r.1 < 64
  {
    var gridIdx := y * c.mapMaxWidth + x;
    (JavaDiv(gridIdx, BitsPerWord), ShiftDistance(JavaRem(gridIdx, BitsPerWord)) as bv7)
  }

  /** The cell is on the largest map. */
  predicate InRange(c: Consts, x: int, y: int)
  {
    0 <= x < c.mapMaxWidth && 0 <= y < c.mapMaxHeight
  }

  /** A word with some bit set: the test `!= 0` the bit reads end in. */
  predicate Nonzero(v: bv64)
  {
    v != 0
  }

  /** `1L << bit` */
  function Mask(bit: bv7): bv64
    requires bit < 64
  {
    1 << bit
  }

  /** reset: a fresh array of zero words. */
  function Reset(c: Consts): (g: Grid)
    requires ValidConsts(c)
    ensures Valid(g, c)
    ensures forall i :: 0 <= i < |g.words| ==> g.words[i] == 0
  {
    Grid(seq(Length(c), _ => 0))
  }

  /** get(x, y): bit (gridIdx % 64) of word gridIdx / 64; None when that word is outside the array. */
  function Get(g: Grid, c: Consts, x: int, y: int): (r: Option<bool>)
    ensures var (e, b) := CellIndex(c, x, y);
      && (r.None? <==> !(0 <= e < |g.words|))
      && (r.Some? ==> (r.value <==> Nonzero(g.words[e] & Mask(b))))
  {
    var (elementIdx, bitIdx) := CellIndex(c, x, y);
    if 0 <= elementIdx < |g.words| then Some((g.words[elementIdx] >> bitIdx) & 1 != 0) else None
  }

  /** get(MapLocation): the same index arithmetic on loc.x and loc.y. */
  function GetAt(g: Grid, c: Consts, loc: Loc): (r: Option<bool>)
    ensures r == Get(g, c, loc.x, loc.y)
  {
    var (elementIdx, bitIdx) := CellIndex(c, loc.x, loc.y);
    if 0 <= elementIdx < |g.words| then Some((g.words[elementIdx] >> bitIdx) & 1 != 0) else None
  }

  /** `w | (1L << bit)` for true, `w & ~(1L << bit)` for false. */
  function WithCell(w: bv64, bit: bv7, value: bool): bv64
    requires bit < 64
  {
    if value then w | Mask(bit) else w & !Mask(bit)
  }

  /** Writes one bit of the cell's word: `|= 1L << bitIdx` for true, `&= ~(1L << bitIdx)` for false. */
  function Put(g: Grid, c: Consts, x: int, y: int, value: bool): (r: Option<Grid>)
    ensures var (e, b) := CellIndex(c, x, y);
      && (r.None? <==> !(0 <= e < |g.words|))
      && (r.Some? ==> (|r.value.words| == |g.words|
            && (forall i :: 0 <= i < |g.words| && i != e ==> r.value.words[i] == g.words[i])
            && r.value.words[e] == WithCell(g.words[e], b, value)))
  {
    var (elementIdx, bitIdx) := CellIndex(c, x, y);
    if 0 <= elementIdx < |g.words| then
      Some(Grid(g.words[elementIdx := WithCell(g.words[elementIdx], bitIdx, value)]))
    else None
  }

  /** setTrue(x, y) */
  function SetTrue(g: Grid, c: Consts, x: int, y: int): (r: Option<Grid>)
    ensures r.Some? ==> Get(r.value, c, x, y) == Some(true)
    ensures r.None? <==> Get(g, c, x, y).None?
  {
    var r := Put(g, c, x, y, true);
    SetBitReads(g, c, x, y, true);
    r
  }

  /** setFalse(x, y) */
  function SetFalse(g: Grid, c: Consts, x: int, y: int): (r: Option<Grid>)
    ensures r.Some? ==> Get(r.value, c, x, y) == Some(false)
    ensures r.None? <==> Get(g, c, x, y).None?
  {
    var r := Put(g, c, x, y, false);
    SetBitReads(g, c, x, y, false);
    r
  }

  /** setTrue(MapLocation) and setFalse(MapLocation): the same index arithmetic on loc.x and loc.y. */
  function PutAt(g: Grid, c: Consts, loc: Loc, value: bool): (r: Option<Grid>)
    ensures r == Put(g, c, loc.x, loc.y, value)
  {
    var (elementIdx, bitIdx) := CellIndex(c, loc.x, loc.y);
    if 0 <= elementIdx < |g.words| then
      Some(Grid(g.words[elementIdx := WithCell(g.words[elementIdx], bitIdx, value)]))
    else None
  }

  /** Writing bit b of a word decides bit b. */
  lemma CellDecides(w: bv64, b: bv7, value: bool)
    requires b < 64
    ensures Nonzero(WithCell(w, b, value) & Mask(b)) == value
  {
    if value { SetDecides(w, b); } else { ClearDecides(w, b); }
  }

  /** Writing bit b of a word leaves every other bit. */
  lemma CellKeeps(w: bv64, b: bv7, k: bv7, value: bool)
    requires b < 64 && k < 64 && k != b
    ensures WithCell(w, b, value) & Mask(k) == w & Mask(k)
  {
    if value { SetKeeps(w, b, k); } else { ClearKeeps(w, b, k); }
  }

  lemma SetDecides(w: bv64, b: bv7)
    requires b < 64
    ensures Nonzero((w | Mask(b)) & Mask(b))
  {
  }

  lemma ClearDecides(w: bv64, b: bv7)
    requires b < 64
    ensures (w & !Mask(b)) & Mask(b) == 0
  {
  }

  /** Masks of distinct bits share no bit. */
  lemma Disjoint(b: bv7, k: bv7)
    requires b < 64 && k < 64 && k != b
    ensures Mask(k) & Mask(b) == 0
  {
  }

  /** Setting bits outside a mask leaves the bits under it. */
  lemma OrKeeps(w: bv64, m: bv64, mk: bv64)
    requires m & mk == 0
    ensures (w | m) & mk == w & mk
  {
  }

  /** Clearing bits outside a mask leaves the bits under it. */
  lemma AndNotKeeps(w: bv64, m: bv64, mk: bv64)
    requires mk & m == 0
    ensures (w & !m) & mk == w & mk
  {
  }

  lemma SetKeeps(w: bv64, b: bv7, k: bv7)
    requires b < 64 && k < 64 && k != b
    ensures (w | Mask(b)) & Mask(k) == w & Mask(k)
  {
    Disjoint(b, k);
    OrKeeps(w, Mask(b), Mask(k));
  }

  lemma ClearKeeps(w: bv64, b: bv7, k: bv7)
    requires b < 64 && k < 64 && k != b
    ensures (w & !Mask(b)) & Mask(k) == w & Mask(k)
  {
    Disjoint(b, k);
    AndNotKeeps(w, Mask(b), Mask(k));
  }

  /** `(w >> b) & 1` tests the same bit as the mask `1 << b`. */
  lemma ShiftTest(w: bv64, b: bv7)
    requires b < 64
    ensures ((w >> b) & 1 != 0) <==> Nonzero(w & Mask(b))
  {
  }

  /** A bit number below 64 survives the conversion to a shift distance. */
  lemma ShiftRoundTrip(b: int)
    requires 0 <= b < 64
    ensures (b as bv7) as int == b
  {
  }

  /** Distinct bit numbers below 64 stay distinct as shift distances. */
  lemma DistinctShifts(b: int, k: int)
    requires 0 <= b < 64 && 0 <= k < 64 && b != k
    ensures (b as bv7) != (k as bv7)
  {
    ShiftRoundTrip(b);
    ShiftRoundTrip(k);
  }

  /** The cell read back after a write holds the written value. */
  lemma SetBitReads(g: Grid, c: Consts, x: int, y: int, value: bool)
    ensures Put(g, c, x, y, value).Some? ==> Get(Put(g, c, x, y, value).value, c, x, y) == Some(value)
    ensures Put(g, c, x, y, value).None? <==> Get(g, c, x, y).None?
  {
    var (e, b) := CellIndex(c, x, y);
    if 0 <= e < |g.words| {
      var g' := Put(g, c, x, y, value).value;
      assert g'.words[e] == WithCell(g.words[e], b, value);
      CellDecides(g.words[e], b, value);
    }
  }

  /** A cell of the largest map has gridIdx in 0 .. W*H-1, so its word is inside the array. */
  lemma GridIdxBounds(c: Consts, x: int, y: int)
    requires ValidConsts(c) && InRange(c, x, y)
    ensures 0 <= y * c.mapMaxWidth + x < c.mapMaxWidth * c.mapMaxHeight
    ensures 0 <= (y * c.mapMaxWidth + x) / 64 < Length(c)
  {
    var gridIdx := y * c.mapMaxWidth + x;
    var n := c.mapMaxHeight * c.mapMaxWidth;
    Arith.MulMono(y, c.mapMaxHeight - 1, c.mapMaxWidth);
    assert gridIdx < n;
    Arith.DivMono(0, gridIdx, 64);
    Arith.DivMono(gridIdx, n - 1, 64);
    Arith.DivMod(n + 63, 64, (n - 1) / 64 + 1, (n - 1) % 64);
  }

  /** For a cell on the largest map Java's arithmetic is plain division: word gridIdx / 64, bit gridIdx % 64. */
  lemma InRangeIndex(c: Consts, x: int, y: int)
    requires ValidConsts(c) && InRange(c, x, y)
    ensures var gridIdx := y * c.mapMaxWidth + x;
      && CellIndex(c, x, y).0 == gridIdx / 64
      && CellIndex(c, x, y).1 == (gridIdx % 64) as bv7
      && 0 <= gridIdx / 64 < Length(c)
  {
    GridIdxBounds(c, x, y);
  }

  /** Distinct cells of the largest map have distinct gridIdx. */
  lemma GridIdxInjective(c: Consts, x: int, y: int, x': int, y': int)
    requires InRange(c, x, y) && InRange(c, x', y') && (x, y) != (x', y')
    ensures y * c.mapMaxWidth + x != y' * c.mapMaxWidth + x'
  {
    if y < y' {
      Arith.MulMono(y + 1, y', c.mapMaxWidth);
    } else if y' < y {
      Arith.MulMono(y' + 1, y, c.mapMaxWidth);
    }
  }

  /** A number is determined by its quotient and remainder. */
  lemma SplitInjective(g: int, g': int)
    requires g != g'
    ensures g / 64 != g' / 64 || g % 64 != g' % 64
  {
    assert g == (g / 64) * 64 + g % 64;
    assert g' == (g' / 64) * 64 + g' % 64;
  }

  /** Distinct cells of the largest map never share a word and a bit. */
  lemma CellsDistinct(c: Consts, x: int, y: int, x': int, y': int)
    requires ValidConsts(c) && InRange(c, x, y) && InRange(c, x', y')
    requires (x, y) != (x', y')
    ensures CellIndex(c, x, y) != CellIndex(c, x', y')
  {
    InRangeIndex(c, x, y);
    InRangeIndex(c, x', y');
    var g, g' := y * c.mapMaxWidth + x, y' * c.mapMaxWidth + x';
    GridIdxInjective(c, x, y, x', y');
    SplitInjective(g, g');
    if g / 64 == g' / 64 {
      DistinctShifts(g % 64, g' % 64);
    }
  }

  /** After reset every cell of the largest map reads false. */
  lemma ResetAllFalse(c: Consts, x: int, y: int)
    requires ValidConsts(c) && InRange(c, x, y)
    ensures Get(Reset(c), c, x, y) == Some(false)
  {
    InRangeIndex(c, x, y);
    var (e, b) := CellIndex(c, x, y);
    ShiftTest(Reset(c).words[e], b);
  }

  /** A write to one cell leaves every other cell of the largest map as it was. */
  lemma PutFrame(g: Grid, c: Consts, x: int, y: int, value: bool, x': int, y': int)
    requires ValidConsts(c) && Valid(g, c) && InRange(c, x, y) && InRange(c, x', y')
    requires (x, y) != (x', y')
    ensures Put(g, c, x, y, value).Some?
    ensures Get(Put(g, c, x, y, value).value, c, x', y') == Get(g, c, x', y')
  {
    InRangeIndex(c, x, y);
    InRangeIndex(c, x', y');
    CellsDistinct(c, x, y, x', y');
    WordFrame(g, CellIndex(c, x, y), CellIndex(c, x', y'), value);
  }

  /** Writing bit b of word e leaves bit b' of word e' unless they are the same bit. */
  lemma WordFrame(g: Grid, at: (int, bv7), other: (int, bv7), value: bool)
    requires 0 <= at.0 < |g.words| && 0 <= other.0 < |g.words| && at.1 < 64 && other.1 < 64
    requires at != other
    ensures var g' := Grid(g.words[at.0 := WithCell(g.words[at.0], at.1, value)]);
      g'.words[other.0] & Mask(other.1) == g.words[other.0] & Mask(other.1)
  {
    if at.0 == other.0 {
      CellKeeps(g.words[at.0], at.1, other.1, value);
    }
  }

  /** On the largest map, every write succeeds and reads back. */
  lemma PutReads(g: Grid, c: Consts, x: int, y: int, value: bool)
    requires ValidConsts(c) && Valid(g, c) && InRange(c, x, y)
    ensures Put(g, c, x, y, value).Some? && Valid(Put(g, c, x, y, value).value, c)
    ensures Get(Put(g, c, x, y, value).value, c, x, y) == Some(value)
  {
    InRangeIndex(c, x, y);
    SetBitReads(g, c, x, y, value);
  }

  /**
   * A cell just west of column 0 is read as the last column of the row below:
   * its gridIdx is the same.
   */
  lemma WestEdgeAliases(g: Grid, c: Consts, y: int)
    requires y >= 1
    ensures CellIndex(c, -1, y) == CellIndex(c, c.mapMaxWidth - 1, y - 1)
    ensures Get(g, c, -1, y) == Get(g, c, c.mapMaxWidth - 1, y - 1)
  {
    assert y * c.mapMaxWidth - 1 == (y - 1) * c.mapMaxWidth + (c.mapMaxWidth - 1);
  }
}
