/**
 * Grid5x5Strategy: the map is cut into 5x5 blocks, numbered column by column
 * (block (x, y) is number x*rows + y). Each block owns two bits of the shared
 * array, eight blocks per word, counting down from word 63: the worker bit (0
 * means the block wants a miner, the default) and the attacker bit (1 means it
 * wants fighters).
 */
module DemandGrid {
  import opened Wrappers
  import opened Engine
  import opened Bits
  import Arith
  import Communication

  const BlockSize: int := 5
  const MaxWordIndex: int := 63
  const BitsPerBlock: int := 2
  const BlocksPerWord: int := 8

  /** The words at the start of the array that the communication layout uses (archon slots and unit counts). */
  const ReservedWords: int := Communication.UnitCountOffset + Communication.UnitCountLength

  /** The number of block columns and rows: the map's size divided by five, rounded down. */
  datatype Layout = Layout(cols: int, rows: int)

  function LayoutOf(dims: MapDims): Layout
  {
    Layout(dims.width / BlockSize, dims.height / BlockSize)
  }

  /**
   * Every block index the source can compute, including those of the partial
   * strips along the top and right edges, lands in a word the communication layout
   * does not use. The engine's largest map, 60x60, has a 12x12 grid, so 13*13 = 169
   * indices, well inside the 8*(64-22) = 336 available.
   */
  predicate GridFits(g: Layout)
  {
    g.cols >= 0 && g.rows >= 0 && (g.cols + 1) * (g.rows + 1) <= BlocksPerWord * (Communication.ArrayLength - ReservedWords)
  }

  datatype Block = Block(x: int, y: int)

  predicate InGrid(g: Layout, b: Block)
  {
    0 <= b.x < g.cols && 0 <= b.y < g.rows
  }

  /** The blocks a location on the map can fall in: the grid plus the partial strips. */
  predicate Extended(g: Layout, b: Block)
  {
    0 <= b.x <= g.cols && 0 <= b.y <= g.rows
  }

  /** The block a location falls in (coordinates on the map are non-negative, so Java's division is Dafny's). */
  function BlockOf(l: Loc): Block
  {
    Block(l.x / BlockSize, l.y / BlockSize)
  }

  function GridIdx(g: Layout, b: Block): int
  {
    b.x * g.rows + b.y
  }

  function WordIndex(idx: int): int { MaxWordIndex - idx / BlocksPerWord }

  function Offset(idx: int): int { idx % BlocksPerWord }

  function WorkerBit(idx: int): int { BitsPerBlock * Offset(idx) }

  function AttackerBit(idx: int): int { BitsPerBlock * Offset(idx) + 1 }

  /** The centre tile of a block, which the searches return. */
  function Centre(b: Block): Loc
  {
    Loc(b.x * BlockSize + BlockSize / 2, b.y * BlockSize + BlockSize / 2)
  }

  // ---------------------------------------------------------------------------
  // Index arithmetic
  // ---------------------------------------------------------------------------

  /** Any index below 512 names a word of the array, and its two bits lie in that word. */
  lemma SlotRange(idx: int)
    requires 0 <= idx < BlocksPerWord * Communication.ArrayLength
    ensures 0 <= WordIndex(idx) < Communication.ArrayLength
    ensures 0 <= Offset(idx) < BlocksPerWord
    ensures 0 <= WorkerBit(idx) && AttackerBit(idx) < WordBits && WorkerBit(idx) != AttackerBit(idx)
  {
  }

  /** Indices below 336 keep clear of the communication words 0..21. */
  lemma GridAvoidsComms(idx: int)
    requires 0 <= idx < BlocksPerWord * (Communication.ArrayLength - ReservedWords)
    ensures ReservedWords <= WordIndex(idx) < Communication.ArrayLength
  {
  }

  /** A location on the map falls in the grid or in one of the partial strips. */
  lemma BlockOfExtended(dims: MapDims, l: Loc)
    requires OnMap(dims, l)
    ensures Extended(LayoutOf(dims), BlockOf(l))
  {
    Arith.DivMono(l.x, dims.width, BlockSize);
    Arith.DivMono(l.y, dims.height, BlockSize);
  }

  lemma IndexInArray(g: Layout, b: Block)
    requires GridFits(g) && Extended(g, b)
    ensures 0 <= GridIdx(g, b) < BlocksPerWord * (Communication.ArrayLength - ReservedWords)
  {
    Arith.MulMono(b.x, g.cols, g.rows);
    assert (g.cols + 1) * (g.rows + 1) == g.cols * g.rows + g.rows + g.cols + 1;
    GridAvoidsComms(0);
  }

  /** Within the grid, distinct blocks have distinct indices. */
  lemma GridIdxInjective(g: Layout, b: Block, c: Block)
    requires InGrid(g, b) && InGrid(g, c) && GridIdx(g, b) == GridIdx(g, c)
    ensures b == c
  {
    Arith.DivMod(GridIdx(g, b), g.rows, b.x, b.y);
    Arith.DivMod(GridIdx(g, c), g.rows, c.x, c.y);
  }

  /** Within the grid, distinct blocks own distinct (word, bit pair) slots. */
  lemma SlotsDistinct(g: Layout, b: Block, c: Block)
    requires InGrid(g, b) && InGrid(g, c) && b != c
    ensures WordIndex(GridIdx(g, b)) != WordIndex(GridIdx(g, c)) || Offset(GridIdx(g, b)) != Offset(GridIdx(g, c))
  {
    var i, j := GridIdx(g, b), GridIdx(g, c);
    if i != j && i / BlocksPerWord == j / BlocksPerWord {
      assert i == BlocksPerWord * (i / BlocksPerWord) + i % BlocksPerWord;
      assert j == BlocksPerWord * (j / BlocksPerWord) + j % BlocksPerWord;
    }
    if i == j {
      GridIdxInjective(g, b, c);
    }
  }

  /** The index of a block the grid or its strips contain, known to fit the array. */
  function BlockIdx(g: Layout, b: Block): (i: int)
    requires GridFits(g) && Extended(g, b)
    ensures 0 <= i < BlocksPerWord * (Communication.ArrayLength - ReservedWords)
    ensures i == GridIdx(g, b)
  {
    IndexInArray(g, b);
    GridIdx(g, b)
  }

  // ---------------------------------------------------------------------------
  // Reading flags
  // ---------------------------------------------------------------------------

  /** The worker bit of the block is 0. */
  predicate WantsWorker(a: Communication.SharedArray, g: Layout, b: Block)
    requires GridFits(g) && Extended(g, b)
  {
    IndexInArray(g, b);
    var idx := GridIdx(g, b);
    GridAvoidsComms(idx);
    !Bit(a[WordIndex(idx)], WorkerBit(idx))
  }

  /** The attacker bit of the block is 1. */
  predicate WantsAttacker(a: Communication.SharedArray, g: Layout, b: Block)
    requires GridFits(g) && Extended(g, b)
  {
    IndexInArray(g, b);
    var idx := GridIdx(g, b);
    GridAvoidsComms(idx);
    Bit(a[WordIndex(idx)], AttackerBit(idx))
  }

  // ---------------------------------------------------------------------------
  // Writing flags
  // ---------------------------------------------------------------------------

  /** Clears (needsWorker) or sets worker bit wb, then sets (needsAttacker) or clears attacker bit ab, of one word. */
  function WriteFlags(v: int, wb: nat, ab: nat, needsWorker: bool, needsAttacker: bool): (r: int)
    requires IsWord(v) && wb < WordBits && ab < WordBits && wb != ab
    ensures IsWord(r)
    ensures Bit(r, wb) == !needsWorker && Bit(r, ab) == needsAttacker
    ensures forall j :: 0 <= j < WordBits && j != wb && j != ab ==> Bit(r, j) == Bit(v, j)
  {
    var v1 := if needsWorker then ClearBit(v, wb) else SetBit(v, wb);
    if needsAttacker then SetBit(v1, ab) else ClearBit(v1, ab)
  }

  /** The tail of scan: rewrite both bits of block idx, leaving the rest of the word and the array alone. */
  function WriteReport(a: Communication.SharedArray, idx: int, needsWorker: bool, needsAttacker: bool): (r: Communication.SharedArray)
    requires 0 <= idx < BlocksPerWord * (Communication.ArrayLength - ReservedWords)
    ensures ReservedWords <= WordIndex(idx) < Communication.ArrayLength
    ensures forall i :: 0 <= i < Communication.ArrayLength && i != WordIndex(idx) ==> r[i] == a[i]
    ensures Bit(r[WordIndex(idx)], WorkerBit(idx)) == !needsWorker
    ensures Bit(r[WordIndex(idx)], AttackerBit(idx)) == needsAttacker
    ensures forall j :: 0 <= j < WordBits && j != WorkerBit(idx) && j != AttackerBit(idx) ==>
      Bit(r[WordIndex(idx)], j) == Bit(a[WordIndex(idx)], j)
  {
    GridAvoidsComms(idx);
    SlotRange(idx);
    var wi := WordIndex(idx);
    a[wi := WriteFlags(a[wi], WorkerBit(idx), AttackerBit(idx), needsWorker, needsAttacker)]
  }

  /** The write of setAttackLocation: set the attacker bit of block idx. */
  function MarkAttack(a: Communication.SharedArray, idx: int): (r: Communication.SharedArray)
    requires 0 <= idx < BlocksPerWord * (Communication.ArrayLength - ReservedWords)
    ensures ReservedWords <= WordIndex(idx) < Communication.ArrayLength
    ensures forall i :: 0 <= i < Communication.ArrayLength && i != WordIndex(idx) ==> r[i] == a[i]
    ensures Bit(r[WordIndex(idx)], AttackerBit(idx))
    ensures forall j :: 0 <= j < WordBits && j != AttackerBit(idx) ==> Bit(r[WordIndex(idx)], j) == Bit(a[WordIndex(idx)], j)
  {
    GridAvoidsComms(idx);
    SlotRange(idx);
    var wi := WordIndex(idx);
    a[wi := SetBit(a[wi], AttackerBit(idx))]
  }

  /** Marking the same block twice is marking it once. */
  lemma MarkAttackIdempotent(a: Communication.SharedArray, idx: int)
    requires 0 <= idx < BlocksPerWord * (Communication.ArrayLength - ReservedWords)
    ensures MarkAttack(MarkAttack(a, idx), idx) == MarkAttack(a, idx)
  {
    var once := MarkAttack(a, idx);
    var twice := MarkAttack(once, idx);
    var wi := WordIndex(idx);
    BitsDetermine(twice[wi], once[wi]);
    assert forall i :: 0 <= i < Communication.ArrayLength ==> twice[i] == once[i];
  }

  /**
   * The effect of rewriting one in-grid block's bits, seen block by block: that
   * block reads the new flags, every other block of the grid reads what it read
   * before, and the communication words are untouched.
   */
  lemma ReportIsLocal(a: Communication.SharedArray, g: Layout, own: Block, needsWorker: bool, needsAttacker: bool)
    requires GridFits(g) && InGrid(g, own)
    ensures var r := WriteReport(a, BlockIdx(g, own), needsWorker, needsAttacker);
      && (forall i :: 0 <= i < ReservedWords ==> r[i] == a[i])
      && WantsWorker(r, g, own) == needsWorker
      && WantsAttacker(r, g, own) == needsAttacker
      && forall b :: InGrid(g, b) && b != own ==>
           WantsWorker(r, g, b) == WantsWorker(a, g, b) && WantsAttacker(r, g, b) == WantsAttacker(a, g, b)
  {
    IndexInArray(g, own);
    var r := WriteReport(a, GridIdx(g, own), needsWorker, needsAttacker);
    forall b | InGrid(g, b) && b != own
      ensures WantsWorker(r, g, b) == WantsWorker(a, g, b) && WantsAttacker(r, g, b) == WantsAttacker(a, g, b)
    {
      SlotsDistinct(g, b, own);
      IndexInArray(g, b);
      SlotRange(GridIdx(g, b));
    }
  }

  /** Marking one in-grid block sets its attacker flag and changes no other flag of the grid. */
  lemma MarkIsLocal(a: Communication.SharedArray, g: Layout, own: Block)
    requires GridFits(g) && InGrid(g, own)
    ensures var r := MarkAttack(a, BlockIdx(g, own));
      && (forall i :: 0 <= i < ReservedWords ==> r[i] == a[i])
      && WantsAttacker(r, g, own)
      && WantsWorker(r, g, own) == WantsWorker(a, g, own)
      && forall b :: InGrid(g, b) && b != own ==>
           WantsWorker(r, g, b) == WantsWorker(a, g, b) && WantsAttacker(r, g, b) == WantsAttacker(a, g, b)
  {
    IndexInArray(g, own);
    var r := MarkAttack(a, GridIdx(g, own));
    SlotRange(GridIdx(g, own));
    forall b | InGrid(g, b) && b != own
      ensures WantsWorker(r, g, b) == WantsWorker(a, g, b) && WantsAttacker(r, g, b) == WantsAttacker(a, g, b)
    {
      SlotsDistinct(g, b, own);
      IndexInArray(g, b);
      SlotRange(GridIdx(g, b));
    }
  }

  // ---------------------------------------------------------------------------
  // setAttackLocation
  // ---------------------------------------------------------------------------

  /** setAttackLocation as written: it marks whatever index the location's block computes to. */
  function SetAttackLocationAsWritten(dims: MapDims, a: Communication.SharedArray, l: Loc): (r: Communication.SharedArray)
    requires OnMap(dims, l) && GridFits(LayoutOf(dims))
    ensures forall i :: 0 <= i < ReservedWords ==> r[i] == a[i]
  {
    BlockOfExtended(dims, l);
    IndexInArray(LayoutOf(dims), BlockOf(l));
    MarkAttack(a, GridIdx(LayoutOf(dims), BlockOf(l)))
  }

  /** setAttackLocation for locations in the grid; a location in a partial strip marks nothing. */
  function SetAttackLocation(dims: MapDims, a: Communication.SharedArray, l: Loc): (r: Communication.SharedArray)
    requires OnMap(dims, l) && GridFits(LayoutOf(dims))
    ensures forall b :: InGrid(LayoutOf(dims), b) ==>
      && WantsAttacker(r, LayoutOf(dims), b) == (b == BlockOf(l) || WantsAttacker(a, LayoutOf(dims), b))
      && WantsWorker(r, LayoutOf(dims), b) == WantsWorker(a, LayoutOf(dims), b)
    ensures forall i :: 0 <= i < ReservedWords ==> r[i] == a[i]
  {
    var g := LayoutOf(dims);
    if InGrid(g, BlockOf(l)) then
      MarkIsLocal(a, g, BlockOf(l));
      SetAttackLocationAsWritten(dims, a, l)
    else a
  }

  /** Setting the same attack location twice is setting it once. */
  lemma SetAttackLocationIdempotent(dims: MapDims, a: Communication.SharedArray, l: Loc)
    requires OnMap(dims, l) && GridFits(LayoutOf(dims))
    ensures SetAttackLocation(dims, SetAttackLocation(dims, a, l), l) == SetAttackLocation(dims, a, l)
  {
    if InGrid(LayoutOf(dims), BlockOf(l)) {
      BlockOfExtended(dims, l);
      IndexInArray(LayoutOf(dims), BlockOf(l));
      MarkAttackIdempotent(a, GridIdx(LayoutOf(dims), BlockOf(l)));
    }
  }

  /**
   * One turn of the grid strategy as the source runs it: scan the tiles the
   * source's loops visit and publish the report through the raw block index,
   * partial strips included, when the robot is placed to scan.
   */
  method UpdateTurnAsWritten(dims: MapDims, a: Communication.SharedArray, here: Loc, me: RobotKind, visionRadiusSq: int,
                             robots: seq<Seen>, sense: Sensing) returns (r: Communication.SharedArray, report: Report)
    requires OnMap(dims, here) && GridFits(LayoutOf(dims))
    ensures report.needsWorker <==>
      WorkerNeeded(robots, me, Worth(sense, ScanTilesAsWritten(dims, BlockOf(here).x * BlockSize, BlockOf(here).y * BlockSize)))
    ensures report.needsAttacker <==> AttackerNeeded(robots, me)
    ensures !Scans(visionRadiusSq, here) ==> r == a
    ensures Scans(visionRadiusSq, here) && InGrid(LayoutOf(dims), BlockOf(here)) ==>
      && WantsWorker(r, LayoutOf(dims), BlockOf(here)) == report.needsWorker
      && WantsAttacker(r, LayoutOf(dims), BlockOf(here)) == report.needsAttacker
    ensures forall i :: 0 <= i < ReservedWords ==> r[i] == a[i]
  {
    var b := BlockOf(here);
    report := ScanReport(robots, me, sense, ScanTilesAsWritten(dims, b.x * BlockSize, b.y * BlockSize));
    r := UpdatePerTurnAsWritten(dims, a, here, visionRadiusSq, report);
    if Scans(visionRadiusSq, here) && InGrid(LayoutOf(dims), b) {
      assert r == UpdatePerTurn(dims, a, here, visionRadiusSq, report);
    }
  }

  /**
   * One turn of the grid strategy, corrected: scan every on-map tile of the
   * robot's block and publish the report only when the robot is placed to scan
   * and its block is in the grid.
   */
  method UpdateTurn(dims: MapDims, a: Communication.SharedArray, here: Loc, me: RobotKind, visionRadiusSq: int,
                    robots: seq<Seen>, sense: Sensing) returns (r: Communication.SharedArray, report: Report)
    requires OnMap(dims, here) && GridFits(LayoutOf(dims))
    ensures report.needsWorker <==>
      WorkerNeeded(robots, me, Worth(sense, ScanTilesIntended(dims, BlockOf(here).x * BlockSize, BlockOf(here).y * BlockSize)))
    ensures report.needsAttacker <==> AttackerNeeded(robots, me)
    ensures !Scans(visionRadiusSq, here) || !InGrid(LayoutOf(dims), BlockOf(here)) ==> r == a
    ensures Scans(visionRadiusSq, here) && InGrid(LayoutOf(dims), BlockOf(here)) ==>
      && WantsWorker(r, LayoutOf(dims), BlockOf(here)) == report.needsWorker
      && WantsAttacker(r, LayoutOf(dims), BlockOf(here)) == report.needsAttacker
    ensures forall b :: InGrid(LayoutOf(dims), b) && b != BlockOf(here) ==>
      WantsWorker(r, LayoutOf(dims), b) == WantsWorker(a, LayoutOf(dims), b)
      && WantsAttacker(r, LayoutOf(dims), b) == WantsAttacker(a, LayoutOf(dims), b)
    ensures forall i :: 0 <= i < ReservedWords ==> r[i] == a[i]
  {
    var b := BlockOf(here);
    report := ScanReport(robots, me, sense, ScanTilesIntended(dims, b.x * BlockSize, b.y * BlockSize));
    r := UpdatePerTurn(dims, a, here, visionRadiusSq, report);
  }

  /**
   * A location in the partial strip along the top edge (its block row equals the
   * number of rows) has the index of the bottom block of the next column.
   */
  predicate InTopStrip(dims: MapDims, l: Loc)
  {
    var g, b := LayoutOf(dims), BlockOf(l);
    b.y == g.rows && g.rows > 0 && b.x + 1 < g.cols
  }

  lemma StripAliases(dims: MapDims, l: Loc)
    requires OnMap(dims, l) && GridFits(LayoutOf(dims)) && InTopStrip(dims, l)
    ensures var g, b := LayoutOf(dims), BlockOf(l);
      && !InGrid(g, b) && InGrid(g, Block(b.x + 1, 0))
      && GridIdx(g, b) == GridIdx(g, Block(b.x + 1, 0))
  {
    BlockOfExtended(dims, l);
  }

  /** On a 10x23 map (a 2x4 grid with a three-tile strip on top), (2, 22) is in the top strip, in block (0, 4). */
  lemma TallMapStrip()
    ensures OnMap(MapDims(10, 23), Loc(2, 22)) && GridFits(LayoutOf(MapDims(10, 23)))
    ensures InTopStrip(MapDims(10, 23), Loc(2, 22)) && BlockOf(Loc(2, 22)) == Block(0, 4)
    ensures Scans(20, Loc(2, 22))
  {
  }

  /**
   * The as-written setAttackLocation from a top-strip location marks the bottom
   * block of the next column, up to a map height away; the corrected one marks nothing.
   */
  lemma StripMarksOtherBlock(dims: MapDims, a: Communication.SharedArray, l: Loc)
    requires OnMap(dims, l) && GridFits(LayoutOf(dims)) && InTopStrip(dims, l)
    ensures var g, victim := LayoutOf(dims), Block(BlockOf(l).x + 1, 0);
      && InGrid(g, victim) && victim != BlockOf(l)
      && SetAttackLocationAsWritten(dims, a, l) == MarkAttack(a, BlockIdx(g, victim))
      && WantsAttacker(SetAttackLocationAsWritten(dims, a, l), g, victim)
      && SetAttackLocation(dims, a, l) == a
  {
    StripAliases(dims, l);
    MarkIsLocal(a, LayoutOf(dims), Block(BlockOf(l).x + 1, 0));
  }

  // ---------------------------------------------------------------------------
  // updatePerTurn and scan
  // ---------------------------------------------------------------------------

  /**
   * The gate of updatePerTurn: a robot whose vision radius squared is 20 scans
   * only when it stands within distance squared 4 of its block's centre.
   */
  predicate Scans(visionRadiusSq: int, l: Loc)
  {
    var offX := l.x - (l.x / BlockSize) * BlockSize;
    var offY := l.y - (l.y / BlockSize) * BlockSize;
    !(visionRadiusSq == 20 && (offX - 2) * (offX - 2) + (offY - 2) * (offY - 2) >= 5)
  }

  /** A robot seen within radius 18 of the block centre: its team (ours or not) and type. */
  datatype Seen = Seen(ours: bool, kind: RobotKind)

  predicate OurWorker(s: Seen) { s.ours && s.kind == Miner }
  predicate OurAttacker(s: Seen) { s.ours && s.kind != Miner && CanAttack(s.kind) }
  predicate TheirThreat(s: Seen) { !s.ours && (CanAttack(s.kind) || s.kind == Archon) }
  predicate TheirHarmless(s: Seen) { !s.ours && !(CanAttack(s.kind) || s.kind == Archon) }

  function Count(robots: seq<Seen>, p: Seen -> bool): (n: nat)
    ensures n <= |robots|
  {
    if robots == [] then 0 else (if p(robots[0]) then 1 else 0) + Count(robots[1..], p)
  }

  /** What scan decides about its block. */
  datatype Report = Report(needsWorker: bool, needsAttacker: bool)

  /**
   * The counting loop of scan, from the last robot to the first, then the robot
   * itself: a miner counts as a worker, another attacking type as an attacker.
   */
  method Census(robots: seq<Seen>, me: RobotKind)
    returns (workers: nat, ourAttackers: nat, theirAttackers: nat, theyHaveNonAttackers: bool)
    ensures workers == Count(robots, OurWorker) + (if me == Miner then 1 else 0)
    ensures ourAttackers == Count(robots, OurAttacker) + (if me != Miner && CanAttack(me) then 1 else 0)
    ensures theirAttackers == Count(robots, TheirThreat)
    ensures theyHaveNonAttackers <==> exists k :: 0 <= k < |robots| && TheirHarmless(robots[k])
  {
    workers, ourAttackers, theirAttackers, theyHaveNonAttackers := 0, 0, 0, false;
    var i := |robots|;
    while i > 0
      invariant 0 <= i <= |robots|
      invariant workers == Count(robots[i..], OurWorker)
      invariant ourAttackers == Count(robots[i..], OurAttacker)
      invariant theirAttackers == Count(robots[i..], TheirThreat)
      invariant theyHaveNonAttackers <==> exists k :: i <= k < |robots| && TheirHarmless(robots[k])
    {
      i := i - 1;
      var robot := robots[i];
      assert robots[i..][1..] == robots[i + 1..];
      if robot.ours {
        if robot.kind == Miner {
          workers := workers + 1;
        } else if CanAttack(robot.kind) {
          ourAttackers := ourAttackers + 1;
        }
      } else {
        if CanAttack(robot.kind) || robot.kind == Archon {
          theirAttackers := theirAttackers + 1;
        } else {
          theyHaveNonAttackers := true;
        }
      }
    }
    assert robots[0..] == robots;
    if me == Miner {
      workers := workers + 1;
    } else if CanAttack(me) {
      ourAttackers := ourAttackers + 1;
    }
  }

  function Min(a: int, b: int): int { if a <= b then a else b }

  /**
   * What one tile adds to scan's total, in hundredths: lead above the one unit the
   * engine regenerates, capped at 45, plus 3/50 for that unit, and all the gold.
   * With at most 25 tiles the exact total is an integer number of hundredths that
   * never equals a multiple of 500 unless no tile had lead, so comparing it with
   * 500 per worker decides as the source's floating-point comparison does.
   */
  function TileWorth(lead: int, gold: int): int
  {
    (if lead >= 1 then 100 * Min(lead - 1, 45) + 6 else 0) + 100 * gold
  }

  function Worth(sense: Sensing, tiles: seq<Loc>): int
  {
    if tiles == [] then 0 else TileWorth(sense.lead(tiles[0]), sense.gold(tiles[0])) + Worth(sense, tiles[1..])
  }

  lemma {:induction false} WorthAppend(sense: Sensing, p: seq<Loc>, q: seq<Loc>)
    ensures Worth(sense, p + q) == Worth(sense, p) + Worth(sense, q)
    decreases |p|
  {
    if p == [] {
      assert p + q == q;
    } else {
      assert (p + q)[1..] == p[1..] + q;
      WorthAppend(sense, p[1..], q);
    }
  }

  /** The tiles (x, bot + j - 1) down to (x, bot). */
  function Column(x: int, bot: int, j: int): seq<Loc>
    decreases j
  {
    if j <= 0 then [] else [Loc(x, bot + j - 1)] + Column(x, bot, j - 1)
  }

  /** The columns left + i - 1 down to left, each of height m: the nested `--i >= 0` loops. */
  function Tiles(left: int, bot: int, i: int, m: int): seq<Loc>
    decreases i
  {
    if i <= 0 then [] else Column(left + i - 1, bot, m) + Tiles(left, bot, i - 1, m)
  }

  lemma {:induction false} ColumnMember(x: int, bot: int, j: int, l: Loc)
    ensures l in Column(x, bot, j) <==> l.x == x && bot <= l.y < bot + j
    decreases j
  {
    if j > 0 {
      ColumnMember(x, bot, j - 1, l);
    }
  }

  lemma InConcat(l: Loc, p: seq<Loc>, q: seq<Loc>)
    ensures l in p + q <==> l in p || l in q
  {
  }

  lemma {:induction false} TileMember(left: int, bot: int, i: int, m: int, l: Loc)
    ensures l in Tiles(left, bot, i, m) <==> left <= l.x < left + i && bot <= l.y < bot + m
    decreases i
  {
    if i > 0 {
      var col, rest := Column(left + i - 1, bot, m), Tiles(left, bot, i - 1, m);
      ColumnMember(left + i - 1, bot, m, l);
      TileMember(left, bot, i - 1, m, l);
      InConcat(l, col, rest);
    }
  }

  lemma TilesMembers(left: int, bot: int, i: int, m: int)
    ensures forall l :: l in Tiles(left, bot, i, m) <==> left <= l.x < left + i && bot <= l.y < bot + m
  {
    forall l: Loc
      ensures l in Tiles(left, bot, i, m) <==> left <= l.x < left + i && bot <= l.y < bot + m
    {
      TileMember(left, bot, i, m, l);
    }
  }

  /**
   * The tiles scan sums, as written: each loop starts from the offset of the
   * block's last tile (or the map's last tile) and pre-decrements it, so it covers
   * offsets 0..3 and never the fifth column and row, nor the map's last ones.
   */
  function ScanTilesAsWritten(dims: MapDims, left: int, bot: int): (r: seq<Loc>)
    ensures forall l :: l in r <==>
      left <= l.x < Min(dims.width - 1, left + BlockSize - 1) && bot <= l.y < Min(dims.height - 1, bot + BlockSize - 1)
  {
    var i, m := Min(dims.width - 1, left + BlockSize - 1) - left, Min(dims.height - 1, bot + BlockSize - 1) - bot;
    TilesMembers(left, bot, i, m);
    Tiles(left, bot, i, m)
  }

  /** The tiles the scan means to sum: every tile of the block that is on the map. */
  function ScanTilesIntended(dims: MapDims, left: int, bot: int): (r: seq<Loc>)
    requires left >= 0 && bot >= 0
    ensures forall l :: l in r <==> OnMap(dims, l) && left <= l.x < left + BlockSize && bot <= l.y < bot + BlockSize
  {
    var i, m := Min(dims.width - 1, left + BlockSize - 1) - left + 1, Min(dims.height - 1, bot + BlockSize - 1) - bot + 1;
    TilesMembers(left, bot, i, m);
    Tiles(left, bot, i, m)
  }

  /**
   * The block's lower-right tile (left+4, bot) on a map wide enough for it is on the
   * map and in the block, yet the as-written scan never reads it.
   */
  lemma ScanSkipsFifthColumn(dims: MapDims, left: int, bot: int)
    requires left >= 0 && bot >= 0 && left + BlockSize - 1 < dims.width && bot < dims.height
    ensures Loc(left + BlockSize - 1, bot) !in ScanTilesAsWritten(dims, left, bot)
    ensures Loc(left + BlockSize - 1, bot) in ScanTilesIntended(dims, left, bot)
  {
    var l := Loc(left + BlockSize - 1, bot);
    assert OnMap(dims, l);
    assert !(l.x < Min(dims.width - 1, left + BlockSize - 1));
  }

  /** Every tile the as-written scan reads is one the intended scan reads. */
  lemma ScanTilesAsWrittenWithin(dims: MapDims, left: int, bot: int)
    requires left >= 0 && bot >= 0
    ensures forall l :: l in ScanTilesAsWritten(dims, left, bot) ==> l in ScanTilesIntended(dims, left, bot)
  {
  }

  /** The summing loop of scan, over the tiles in the order the source visits them. */
  method TotalWorth(sense: Sensing, tiles: seq<Loc>) returns (total: int)
    ensures total == Worth(sense, tiles)
  {
    total := 0;
    var i := 0;
    while i < |tiles|
      invariant 0 <= i <= |tiles|
      invariant total == Worth(sense, tiles[..i])
    {
      WorthAppend(sense, tiles[..i], [tiles[i]]);
      assert tiles[..i + 1] == tiles[..i] + [tiles[i]];
      total := total + TileWorth(sense.lead(tiles[i]), sense.gold(tiles[i]));
      i := i + 1;
    }
    assert tiles[..i] == tiles;
  }

  /**
   * A block needs a worker when its resources, in hundredths, exceed five per
   * worker counted (the scanning robot included) and fewer than 19 robots (more
   * than 0.75 of 25) were seen.
   */
  predicate WorkerNeeded(robots: seq<Seen>, me: RobotKind, worth: int)
  {
    worth > 500 * (Count(robots, OurWorker) + (if me == Miner then 1 else 0)) && |robots| < 19
  }

  /** A block needs an attacker when the enemy's fighters outnumber ours, or it has only non-fighters there. */
  predicate AttackerNeeded(robots: seq<Seen>, me: RobotKind)
  {
    var ours := Count(robots, OurAttacker) + (if me != Miner && CanAttack(me) then 1 else 0);
    var theirs := Count(robots, TheirThreat);
    ours < theirs || (theirs == 0 && exists k :: 0 <= k < |robots| && TheirHarmless(robots[k]))
  }

  /** The decision of scan over the given tiles, from one census of the robots seen and one sum of the tiles' worth. */
  method ScanReport(robots: seq<Seen>, me: RobotKind, sense: Sensing, tiles: seq<Loc>) returns (r: Report)
    ensures r.needsWorker <==> WorkerNeeded(robots, me, Worth(sense, tiles))
    ensures r.needsAttacker <==> AttackerNeeded(robots, me)
  {
    var workers, ourAttackers, theirAttackers, theyHaveNonAttackers := Census(robots, me);
    var total := TotalWorth(sense, tiles);
    var tooCrowded := |robots| > 18;
    var needsWorker := total > 500 * workers && !tooCrowded;
    var needsAttacker := ourAttackers < theirAttackers || (theirAttackers == 0 && theyHaveNonAttackers);
    r := Report(needsWorker, needsAttacker);
  }

  /** updatePerTurn as written: a robot in a partial strip writes through its raw block index. */
  function UpdatePerTurnAsWritten(dims: MapDims, a: Communication.SharedArray, here: Loc, visionRadiusSq: int, report: Report)
    : (r: Communication.SharedArray)
    requires OnMap(dims, here) && GridFits(LayoutOf(dims))
    ensures !Scans(visionRadiusSq, here) ==> r == a
    ensures forall i :: 0 <= i < ReservedWords ==> r[i] == a[i]
  {
    if !Scans(visionRadiusSq, here) then a
    else
      BlockOfExtended(dims, here);
      IndexInArray(LayoutOf(dims), BlockOf(here));
      WriteReport(a, GridIdx(LayoutOf(dims), BlockOf(here)), report.needsWorker, report.needsAttacker)
  }

  /**
   * updatePerTurn for robots in the grid: after a scan the robot's own block
   * carries the report, every other block keeps its flags, and the communication
   * words are untouched. A robot in a partial strip reports nothing.
   */
  function UpdatePerTurn(dims: MapDims, a: Communication.SharedArray, here: Loc, visionRadiusSq: int, report: Report)
    : (r: Communication.SharedArray)
    requires OnMap(dims, here) && GridFits(LayoutOf(dims))
    ensures !Scans(visionRadiusSq, here) || !InGrid(LayoutOf(dims), BlockOf(here)) ==> r == a
    ensures Scans(visionRadiusSq, here) && InGrid(LayoutOf(dims), BlockOf(here)) ==>
      && WantsWorker(r, LayoutOf(dims), BlockOf(here)) == report.needsWorker
      && WantsAttacker(r, LayoutOf(dims), BlockOf(here)) == report.needsAttacker
    ensures forall b :: InGrid(LayoutOf(dims), b) && b != BlockOf(here) ==>
      WantsWorker(r, LayoutOf(dims), b) == WantsWorker(a, LayoutOf(dims), b)
      && WantsAttacker(r, LayoutOf(dims), b) == WantsAttacker(a, LayoutOf(dims), b)
    ensures forall i :: 0 <= i < ReservedWords ==> r[i] == a[i]
  {
    if Scans(visionRadiusSq, here) && InGrid(LayoutOf(dims), BlockOf(here)) then
      ReportIsLocal(a, LayoutOf(dims), BlockOf(here), report.needsWorker, report.needsAttacker);
      UpdatePerTurnAsWritten(dims, a, here, visionRadiusSq, report)
    else a
  }

  /**
   * A robot in the top strip that scans overwrites both flags of the bottom block
   * of the next column with its own report; the corrected update writes nothing.
   * On the 10x23 map a miner at (2, 22), two tiles from its block's centre, does so.
   */
  lemma StripReportLandsOnOtherBlock(dims: MapDims, a: Communication.SharedArray, here: Loc, visionRadiusSq: int, report: Report)
    requires OnMap(dims, here) && GridFits(LayoutOf(dims)) && InTopStrip(dims, here) && Scans(visionRadiusSq, here)
    ensures var g, victim := LayoutOf(dims), Block(BlockOf(here).x + 1, 0);
      var r := UpdatePerTurnAsWritten(dims, a, here, visionRadiusSq, report);
      && InGrid(g, victim) && victim != BlockOf(here)
      && WantsWorker(r, g, victim) == report.needsWorker
      && WantsAttacker(r, g, victim) == report.needsAttacker
      && UpdatePerTurn(dims, a, here, visionRadiusSq, report) == a
  {
    StripAliases(dims, here);
    ReportIsLocal(a, LayoutOf(dims), Block(BlockOf(here).x + 1, 0), report.needsWorker, report.needsAttacker);
  }

  // ---------------------------------------------------------------------------
  // The searches
  // ---------------------------------------------------------------------------

  predicate AllInGrid(g: Layout, bs: seq<Block>)
  {
    forall b :: b in bs ==> InGrid(g, b)
  }

  predicate AllExtended(g: Layout, bs: seq<Block>)
  {
    forall b :: b in bs ==> Extended(g, b)
  }

  /** The four edge neighbours, each probed only behind the source's one-sided test. */
  function OrthogonalAsWritten(g: Layout, gx: int, gy: int): seq<Block>
  {
    (if gx > 0 then [Block(gx - 1, gy)] else [])
    + (if gx < g.cols - 1 then [Block(gx + 1, gy)] else [])
    + (if gy > 0 then [Block(gx, gy - 1)] else [])
    + (if gy < g.rows - 1 then [Block(gx, gy + 1)] else [])
  }

  /** The four corner neighbours, behind the source's nested one-sided tests. */
  function DiagonalAsWritten(g: Layout, gx: int, gy: int): seq<Block>
  {
    (if gx > 0 then
       (if gy > 0 then [Block(gx - 1, gy - 1)] else []) + (if gy < g.rows - 1 then [Block(gx - 1, gy + 1)] else [])
     else [])
    + (if gx < g.cols - 1 then
         (if gy > 0 then [Block(gx + 1, gy - 1)] else []) + (if gy < g.rows - 1 then [Block(gx + 1, gy + 1)] else [])
       else [])
  }

  /** Each one-sided test keeps its probe inside the grid in the direction it checks. */
  lemma NeighboursExtended(g: Layout, gx: int, gy: int)
    requires Extended(g, Block(gx, gy))
    ensures AllExtended(g, OrthogonalAsWritten(g, gx, gy)) && AllExtended(g, DiagonalAsWritten(g, gx, gy))
  {
  }

  /** From a block inside the grid, the one-sided tests are complete: every neighbour probed is in the grid. */
  lemma NeighboursInGrid(g: Layout, gx: int, gy: int)
    requires InGrid(g, Block(gx, gy))
    ensures AllInGrid(g, OrthogonalAsWritten(g, gx, gy)) && AllInGrid(g, DiagonalAsWritten(g, gx, gy))
  {
  }

  function InGridOnly(g: Layout, bs: seq<Block>): (r: seq<Block>)
    ensures forall b :: b in r <==> b in bs && InGrid(g, b)
  {
    if bs == [] then []
    else (if InGrid(g, bs[0]) then [bs[0]] else []) + InGridOnly(g, bs[1..])
  }

  lemma {:induction false} InGridOnlyKeeps(g: Layout, bs: seq<Block>)
    requires AllInGrid(g, bs)
    ensures InGridOnly(g, bs) == bs
    decreases |bs|
  {
    if bs != [] {
      assert bs[0] in bs;
      InGridOnlyKeeps(g, bs[1..]);
      assert bs == [bs[0]] + bs[1..];
    }
  }

  /** One step i of ring r: the four sides, each fully bounds-checked. */
  function RingStep(g: Layout, gx: int, gy: int, r: int, i: int): seq<Block>
  {
    InGridOnly(g, [Block(gx - r + i, gy - r), Block(gx + r, gy - r + i), Block(gx + r - i, gy + r), Block(gx - r, gy + r - i)])
  }

  /** Ring r from step i down to step 0. */
  function RingFrom(g: Layout, gx: int, gy: int, r: int, i: int): (bs: seq<Block>)
    ensures AllInGrid(g, bs)
    decreases i
  {
    if i < 0 then [] else RingStep(g, gx, gy, r, i) + RingFrom(g, gx, gy, r, i - 1)
  }

  /** Ring r, steps 2r-2 down to 0. */
  function Ring(g: Layout, gx: int, gy: int, r: int): seq<Block>
  {
    RingFrom(g, gx, gy, r, 2 * r - 2)
  }

  function Rings(g: Layout, gx: int, gy: int, r: int, limit: int): (bs: seq<Block>)
    ensures AllInGrid(g, bs)
    decreases limit - r
  {
    if r >= limit then [] else Ring(g, gx, gy, r) + Rings(g, gx, gy, r + 1, limit)
  }

  function Max(a: int, b: int): int { if a >= b then a else b }

  /** The bound of the ring loop. */
  function RingLimit(g: Layout, gx: int, gy: int): int
  {
    Max(Max(gx + 1, gy + 1), Max(g.cols - gx, g.rows - gy))
  }

  function RingsFrom(g: Layout, gx: int, gy: int): (bs: seq<Block>)
    ensures AllInGrid(g, bs)
  {
    Rings(g, gx, gy, 2, RingLimit(g, gx, gy))
  }

  /** Every block the as-written search probes, in order. */
  function ProbesAsWritten(g: Layout, gx: int, gy: int): (bs: seq<Block>)
    requires Extended(g, Block(gx, gy))
    ensures AllExtended(g, bs)
  {
    NeighboursExtended(g, gx, gy);
    OrthogonalAsWritten(g, gx, gy) + DiagonalAsWritten(g, gx, gy) + RingsFrom(g, gx, gy)
  }

  /** The corrected probe order: the same blocks, each neighbour also checked against the whole grid. */
  function Probes(g: Layout, gx: int, gy: int): (bs: seq<Block>)
    ensures AllInGrid(g, bs)
  {
    InGridOnly(g, OrthogonalAsWritten(g, gx, gy)) + InGridOnly(g, DiagonalAsWritten(g, gx, gy)) + RingsFrom(g, gx, gy)
  }

  /** For a block inside the grid the two probe orders coincide. */
  lemma ProbesAgreeInGrid(g: Layout, gx: int, gy: int)
    requires InGrid(g, Block(gx, gy))
    ensures Probes(g, gx, gy) == ProbesAsWritten(g, gx, gy)
  {
    NeighboursInGrid(g, gx, gy);
    InGridOnlyKeeps(g, OrthogonalAsWritten(g, gx, gy));
    InGridOnlyKeeps(g, DiagonalAsWritten(g, gx, gy));
  }

  /**
   * From a robot in the right-hand strip the as-written search probes a block
   * outside the grid, whose bits no grid block owns; the corrected probes never
   * do.
   */
  lemma StripSearchProbesOutside(g: Layout, gx: int, gy: int)
    requires g.cols >= 0 && gx == g.cols && 0 < gy <= g.rows
    ensures Block(gx, gy - 1) in ProbesAsWritten(g, gx, gy) && !InGrid(g, Block(gx, gy - 1))
    ensures Block(gx, gy - 1) !in Probes(g, gx, gy)
  {
    assert Block(gx, gy - 1) in OrthogonalAsWritten(g, gx, gy);
  }

  datatype Need = Worker | Attacker

  predicate Wants(a: Communication.SharedArray, g: Layout, need: Need, b: Block)
    requires GridFits(g) && Extended(g, b)
  {
    match need
    case Worker => WantsWorker(a, g, b)
    case Attacker => WantsAttacker(a, g, b)
  }

  /** The first probed block whose flag asks for help. */
  function FirstWanted(a: Communication.SharedArray, g: Layout, need: Need, bs: seq<Block>): (r: Option<Block>)
    requires GridFits(g) && AllExtended(g, bs)
    ensures r.None? <==> forall b :: b in bs ==> !Wants(a, g, need, b)
    ensures r.Some? ==> r.value in bs && Wants(a, g, need, r.value)
  {
    if bs == [] then None
    else if Wants(a, g, need, bs[0]) then Some(bs[0])
    else
      assert forall b :: b in bs <==> b == bs[0] || b in bs[1..];
      FirstWanted(a, g, need, bs[1..])
  }

  /** Block k of bs wants help and no block before it does. */
  predicate FirstWantedAt(a: Communication.SharedArray, g: Layout, need: Need, bs: seq<Block>, k: int)
  {
    && GridFits(g) && AllExtended(g, bs) && 0 <= k < |bs|
    && Wants(a, g, need, bs[k])
    && forall k' :: 0 <= k' < k ==> !Wants(a, g, need, bs[k'])
  }

  /** The block found is the first wanted one: no block probed before it is wanted. */
  lemma {:induction false} FirstWantedIsFirst(a: Communication.SharedArray, g: Layout, need: Need, bs: seq<Block>)
    requires GridFits(g) && AllExtended(g, bs)
    ensures var r := FirstWanted(a, g, need, bs);
      r.Some? ==> exists k :: 0 <= k < |bs| && bs[k] == r.value && forall k' :: 0 <= k' < k ==> !Wants(a, g, need, bs[k'])
    decreases |bs|
  {
    if bs != [] && Wants(a, g, need, bs[0]) {
      assert bs[0] == FirstWanted(a, g, need, bs).value;
    } else if bs != [] {
      FirstWantedIsFirst(a, g, need, bs[1..]);
      var r := FirstWanted(a, g, need, bs[1..]);
      if r.Some? {
        var k :| 0 <= k < |bs[1..]| && bs[1..][k] == r.value && forall k' :: 0 <= k' < k ==> !Wants(a, g, need, bs[1..][k']);
        forall k' | 0 <= k' < k + 1
          ensures !Wants(a, g, need, bs[k'])
        {
          if k' > 0 {
            assert bs[k'] == bs[1..][k' - 1];
          }
        }
        assert bs[k + 1] == r.value;
      }
    }
  }

  /** Looking through a concatenation is looking through the first part, then the second. */
  lemma {:induction false} FirstWantedAppend(a: Communication.SharedArray, g: Layout, need: Need, p: seq<Block>, q: seq<Block>)
    requires GridFits(g) && AllExtended(g, p) && AllExtended(g, q)
    ensures AllExtended(g, p + q)
    ensures FirstWanted(a, g, need, p + q) ==
      if FirstWanted(a, g, need, p).Some? then FirstWanted(a, g, need, p) else FirstWanted(a, g, need, q)
    decreases |p|
  {
    if p == [] {
      assert p + q == q;
    } else {
      assert (p + q)[1..] == p[1..] + q;
      assert (p + q)[0] == p[0];
      FirstWantedAppend(a, g, need, p[1..], q);
    }
  }

  /** findClosestMiningLocation (need Worker) and findClosestAttackLocation (need Attacker), as written. */
  function FindClosestAsWritten(dims: MapDims, a: Communication.SharedArray, here: Loc, need: Need): (r: Option<Loc>)
    requires OnMap(dims, here) && GridFits(LayoutOf(dims))
    ensures r.Some? ==> exists b :: Extended(LayoutOf(dims), b) && Wants(a, LayoutOf(dims), need, b) && r.value == Centre(b)
  {
    var g, b := LayoutOf(dims), BlockOf(here);
    BlockOfExtended(dims, here);
    match FirstWanted(a, g, need, ProbesAsWritten(g, b.x, b.y))
    case Some(found) => Some(Centre(found))
    case None => None
  }

  /**
   * The searches with every probe bounds-checked: a result is the centre of an
   * in-grid block whose flag asks for help, and None means no probed block asks.
   */
  function FindClosest(dims: MapDims, a: Communication.SharedArray, here: Loc, need: Need): (r: Option<Loc>)
    requires OnMap(dims, here) && GridFits(LayoutOf(dims))
    ensures r.Some? ==> exists b :: InGrid(LayoutOf(dims), b) && Wants(a, LayoutOf(dims), need, b) && r.value == Centre(b)
    ensures r.None? <==> forall b :: b in Probes(LayoutOf(dims), BlockOf(here).x, BlockOf(here).y) ==>
      !Wants(a, LayoutOf(dims), need, b)
    ensures r.Some? ==>
      exists k :: (FirstWantedAt(a, LayoutOf(dims), need, Probes(LayoutOf(dims), BlockOf(here).x, BlockOf(here).y), k)
                   && r.value == Centre(Probes(LayoutOf(dims), BlockOf(here).x, BlockOf(here).y)[k]))
  {
    var g, b := LayoutOf(dims), BlockOf(here);
    var probes := Probes(g, b.x, b.y);
    var found := FirstWanted(a, g, need, probes);
    if found.Some? then
      assert exists k :: FirstWantedAt(a, g, need, probes, k) && Centre(found.value) == Centre(probes[k]) by {
        FirstWantedIsFirst(a, g, need, probes);
        var k :| 0 <= k < |probes| && probes[k] == found.value && forall k' :: 0 <= k' < k ==> !Wants(a, g, need, probes[k']);
        assert FirstWantedAt(a, g, need, probes, k);
      }
      Some(Centre(found.value))
    else None
  }

  /** From a block in the grid the corrected search is the search as written. */
  lemma FindClosestAgreesInGrid(dims: MapDims, a: Communication.SharedArray, here: Loc, need: Need)
    requires OnMap(dims, here) && GridFits(LayoutOf(dims)) && InGrid(LayoutOf(dims), BlockOf(here))
    ensures FindClosest(dims, a, here, need) == FindClosestAsWritten(dims, a, here, need)
  {
    ProbesAgreeInGrid(LayoutOf(dims), BlockOf(here).x, BlockOf(here).y);
  }

  /** An edge neighbour that asks for help wins over every corner neighbour and ring block. */
  lemma OrthogonalFirst(dims: MapDims, a: Communication.SharedArray, here: Loc, need: Need)
    requires OnMap(dims, here) && GridFits(LayoutOf(dims))
    ensures var g, b := LayoutOf(dims), BlockOf(here);
      var orth := InGridOnly(g, OrthogonalAsWritten(g, b.x, b.y));
      AllExtended(g, orth) && FirstWanted(a, g, need, orth).Some? ==>
        FindClosest(dims, a, here, need) == Some(Centre(FirstWanted(a, g, need, orth).value))
  {
    var g, b := LayoutOf(dims), BlockOf(here);
    var orth := InGridOnly(g, OrthogonalAsWritten(g, b.x, b.y));
    var diag := InGridOnly(g, DiagonalAsWritten(g, b.x, b.y));
    var rings := RingsFrom(g, b.x, b.y);
    FirstWantedAppend(a, g, need, orth, diag);
    FirstWantedAppend(a, g, need, orth + diag, rings);
  }

  /**
   * The ring loop steps i from 2r-2 down to 0, so each side covers 2r-1 of its
   * 2r+1 blocks and the side's far corner is the next side's i = 0 probe: the four
   * blocks next to the corners, (gx+r-1, gy-r), (gx+r, gy+r-1), (gx-r+1, gy+r) and
   * (gx-r, gy-r+1), are never probed in ring r.
   */
  lemma {:induction false} RingSkips(g: Layout, gx: int, gy: int, r: int, i: int)
    requires r >= 2 && i <= 2 * r - 2
    ensures Block(gx + r - 1, gy - r) !in RingFrom(g, gx, gy, r, i)
    ensures Block(gx + r, gy + r - 1) !in RingFrom(g, gx, gy, r, i)
    ensures Block(gx - r + 1, gy + r) !in RingFrom(g, gx, gy, r, i)
    ensures Block(gx - r, gy - r + 1) !in RingFrom(g, gx, gy, r, i)
    decreases i
  {
    if i >= 0 {
      RingSkips(g, gx, gy, r, i - 1);
    }
  }

  /** The four blocks of one ring step are at Chebyshev distance r from the centre. */
  lemma RingStepDistance(g: Layout, gx: int, gy: int, r: int, i: int)
    requires r >= 2 && 0 <= i <= 2 * r - 2
    ensures forall b :: b in RingStep(g, gx, gy, r, i) ==> Max(Max(b.x - gx, gx - b.x), Max(b.y - gy, gy - b.y)) == r
  {
  }

  /** Every block ring r probes is at Chebyshev distance exactly r. */
  lemma {:induction false} RingDistance(g: Layout, gx: int, gy: int, r: int, i: int)
    requires r >= 2 && i <= 2 * r - 2
    ensures forall b :: b in RingFrom(g, gx, gy, r, i) ==> Max(Max(b.x - gx, gx - b.x), Max(b.y - gy, gy - b.y)) == r
    decreases i
  {
    if i >= 0 {
      RingDistance(g, gx, gy, r, i - 1);
      RingStepDistance(g, gx, gy, r, i);
      forall b | b in RingFrom(g, gx, gy, r, i)
        ensures Max(Max(b.x - gx, gx - b.x), Max(b.y - gy, gy - b.y)) == r
      {
        assert b in RingStep(g, gx, gy, r, i) || b in RingFrom(g, gx, gy, r, i - 1);
      }
    }
  }
}
