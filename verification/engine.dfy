/**
 * The game engine's types as the core sees them. The engine library itself is not
 * part of this model; what is written here is the arithmetic the core relies on:
 * directions are the eight compass points in clockwise order starting at north,
 * rotateRight is one step clockwise, rotateLeft one step counter-clockwise, north
 * is +y, and distances are squared Euclidean distances.
 */
module Engine {

  datatype Loc = Loc(x: int, y: int)

  /** A compass direction other than CENTER, by its ordinal: N, NE, E, SE, S, SW, W, NW. */
  type Dir = d: int | 0 <= d < 8

  /** The engine's direction enumeration, including CENTER. */
  datatype Direction =
    | North | NorthEast | East | SouthEast | South | SouthWest | West | NorthWest | Center

  function RotateRight(d: Dir): Dir { (d + 1) % 8 }

  function RotateLeft(d: Dir): Dir { (d + 7) % 8 }

  function DirDx(d: Dir): int
  {
    if d == 1 || d == 2 || d == 3 then 1
    else if d == 5 || d == 6 || d == 7 then -1
    else 0
  }

  function DirDy(d: Dir): int
  {
    if d == 7 || d == 0 || d == 1 then 1
    else if d == 3 || d == 4 || d == 5 then -1
    else 0
  }

  /** MapLocation.add */
  function Add(l: Loc, d: Dir): Loc
  {
    Loc(l.x + DirDx(d), l.y + DirDy(d))
  }

  /** MapLocation.distanceSquaredTo */
  function DistSq(a: Loc, b: Loc): nat
  {
    (a.x - b.x) * (a.x - b.x) + (a.y - b.y) * (a.y - b.y)
  }

  /** The actual map's dimensions (rc.getMapWidth / rc.getMapHeight). */
  datatype MapDims = MapDims(width: int, height: int)

  predicate ValidDims(m: MapDims)
  {
    m.width >= 1 && m.height >= 1
  }

  predicate OnMap(m: MapDims, l: Loc)
  {
    0 <= l.x < m.width && 0 <= l.y < m.height
  }

  /**
   * The engine's GameConstants the core reads: MAP_MAX_WIDTH, MAP_MAX_HEIGHT and
   * GAME_MAX_NUMBER_OF_ROUNDS. Their values are not assumed, only that the largest
   * map fits a 16-bit word once (so the timestamp granularity is at least 1).
   */
  datatype Consts = Consts(mapMaxWidth: int, mapMaxHeight: int, maxRounds: int)

  predicate ValidConsts(c: Consts)
  {
    && c.mapMaxWidth >= 1
    && c.mapMaxHeight >= 1
    && c.mapMaxWidth * c.mapMaxHeight <= 0xFFFF
    && c.maxRounds >= 0
  }

  /** The robot types, in RobotType ordinal order. */
  datatype RobotKind = Archon | Laboratory | Watchtower | Miner | Builder | Soldier | Sage

  /**
   * RobotType.canAttack: the 2022 engine's attacking types are the watchtower, the
   * soldier and the sage (archons heal, miners mine, builders build).
   */
  predicate CanAttack(k: RobotKind)
  {
    k == Watchtower || k == Soldier || k == Sage
  }

  /** rc.senseLead and rc.senseGold: the lead and gold on each tile. */
  datatype Sensing = Sensing(lead: Loc -> int, gold: Loc -> int)

  /** The lead plus gold on a tile. */
  function Resources(s: Sensing, l: Loc): int { s.lead(l) + s.gold(l) }

  /** A java.util.Random stream, injected: the bits it will produce, and how many were drawn. */
  datatype Rng = Rng(bits: nat -> bool, pos: nat)
  {
    /** nextBoolean() */
    function NextBool(): (bool, Rng)
    {
      (bits(pos), Rng(bits, pos + 1))
    }
  }
}
