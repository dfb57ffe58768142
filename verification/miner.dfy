/**
 * The miner's turn after the flee check: share the 3x3 window of resources with
 * the nearby friendly miners, stay put when enough of it is left to us, and
 * otherwise pick the next place to mine.
 */
module Miner {
  import opened Wrappers
  import opened Engine
  import opened Window
  import opened Select

  /** RESOURCE_ALLOCATION_PER_TILE: how much of a tile one neighbouring miner is assumed to take. */
  const Alloc := 10
  /** MIN_LEAD_AMOUNT: lead below this is not worth travelling to. */
  const MinLeadAmount := 2
  /** With more nearby miners than this the window is not computed and nothing is ours. */
  const MaxMinersConsidered := 7
  /** A miner left at least this many positive tiles stays where it is. */
  const StayThreshold := 5

  /** The tile that window cell (i, j) covers. */
  function Neighbour(here: Loc, i: int, j: int): Loc { Loc(here.x + i - 1, here.y + j - 1) }

  // ---------------------------------------------------------------------------
  // The window
  // ---------------------------------------------------------------------------

  /**
   * The nine-way case split that refreshes the window: the centre always, and on
   * each edge or corner only the neighbours that are on the map. Cells that would
   * lie off the map keep whatever the window held from an earlier turn.
   */
  function BuildWindow(prev: Mat3, here: Loc, dims: MapDims, sense: Sensing): (r: Mat3)
    ensures At(r, 1, 1) == Resources(sense, here)
    ensures dims.width >= 2 && dims.height >= 2 && OnMap(dims, here) ==>
      forall i, j :: InWindow(i, j) ==>
        At(r, i, j) == if OnMap(dims, Neighbour(here, i, j)) then Resources(sense, Neighbour(here, i, j)) else At(prev, i, j)
  {
    var s := (dx: int, dy: int) => Resources(sense, Loc(here.x + dx, here.y + dy));
    var c := prev.(m11 := s(0, 0));
    if here.x == 0 then
      if here.y == 0 then c.(m21 := s(1, 0), m22 := s(1, 1), m12 := s(0, 1))
      else if here.y == dims.height - 1 then c.(m21 := s(1, 0), m20 := s(1, -1), m10 := s(0, -1))
      else c.(m10 := s(0, -1), m20 := s(1, -1), m21 := s(1, 0), m22 := s(1, 1), m12 := s(0, 1))
    else if here.x == dims.width - 1 then
      if here.y == 0 then c.(m01 := s(-1, 0), m02 := s(-1, 1), m12 := s(0, 1))
      else if here.y == dims.height - 1 then c.(m01 := s(-1, 0), m00 := s(-1, -1), m10 := s(0, -1))
      else c.(m10 := s(0, -1), m00 := s(-1, -1), m01 := s(-1, 0), m02 := s(-1, 1), m12 := s(0, 1))
    else
      if here.y == 0 then c.(m21 := s(1, 0), m22 := s(1, 1), m12 := s(0, 1), m02 := s(-1, 1), m01 := s(-1, 0))
      else if here.y == dims.height - 1 then c.(m21 := s(1, 0), m20 := s(1, -1), m10 := s(0, -1), m00 := s(-1, -1), m01 := s(-1, 0))
      else c.(m21 := s(1, 0), m22 := s(1, 1), m12 := s(0, 1), m02 := s(-1, 1),
              m01 := s(-1, 0), m00 := s(-1, -1), m10 := s(0, -1), m20 := s(1, -1))
  }

  // ---------------------------------------------------------------------------
  // Deductions
  // ---------------------------------------------------------------------------

  /**
   * The unrolled switch on (relX, relY), as written. The source computes the key
   * as the miner's offset plus one, and the cases (1, -2) and (1, 2) charge cells
   * that do not follow the pattern of the other twenty-two.
   */
  function DeductAsWritten(m: Mat3, relX: int, relY: int): Mat3
  {
    var a := Alloc;
    if relX == -2 then
      if relY == -2 then m.(m00 := m.m00 - a)
      else if relY == -1 then m.(m00 := m.m00 - a, m01 := m.m01 - a)
      else if relY == 0 then m.(m02 := m.m02 - a, m01 := m.m01 - a, m00 := m.m00 - a)
      else if relY == 1 then m.(m02 := m.m02 - a, m01 := m.m01 - a)
      else if relY == 2 then m.(m02 := m.m02 - a)
      else m
    else if relX == -1 then
      if relY == -2 then m.(m00 := m.m00 - a, m10 := m.m10 - a)
      else if relY == -1 then m.(m00 := m.m00 - a, m10 := m.m10 - a, m01 := m.m01 - a)
      else if relY == 0 then m.(m01 := m.m01 - a, m02 := m.m02 - a, m00 := m.m00 - a, m12 := m.m12 - a, m10 := m.m10 - a)
      else if relY == 1 then m.(m02 := m.m02 - a, m12 := m.m12 - a, m01 := m.m01 - a)
      else if relY == 2 then m.(m02 := m.m02 - a, m12 := m.m12 - a)
      else m
    else if relX == 0 then
      if relY == -2 then m.(m00 := m.m00 - a, m10 := m.m10 - a, m20 := m.m20 - a)
      else if relY == -1 then m.(m10 := m.m10 - a, m20 := m.m20 - a, m00 := m.m00 - a, m21 := m.m21 - a, m01 := m.m01 - a)
      else if relY == 1 then m.(m12 := m.m12 - a, m22 := m.m22 - a, m02 := m.m02 - a, m21 := m.m21 - a, m01 := m.m01 - a)
      else if relY == 2 then m.(m02 := m.m02 - a, m12 := m.m12 - a, m22 := m.m22 - a)
      else m
    else if relX == 1 then
      if relY == -2 then m.(m00 := m.m00 - a, m10 := m.m10 - a)
      else if relY == -1 then m.(m20 := m.m20 - a, m10 := m.m10 - a, m21 := m.m21 - a)
      else if relY == 0 then m.(m21 := m.m21 - a, m22 := m.m22 - a, m20 := m.m20 - a, m12 := m.m12 - a, m10 := m.m10 - a)
      else if relY == 1 then m.(m22 := m.m22 - a, m12 := m.m12 - a, m21 := m.m21 - a)
      else if relY == 2 then m.(m20 := m.m20 - a, m10 := m.m10 - a)
      else m
    else if relX == 2 then
      if relY == -2 then m.(m20 := m.m20 - a)
      else if relY == -1 then m.(m20 := m.m20 - a, m21 := m.m21 - a)
      else if relY == 0 then m.(m22 := m.m22 - a, m21 := m.m21 - a, m20 := m.m20 - a)
      else if relY == 1 then m.(m22 := m.m22 - a, m21 := m.m21 - a)
      else if relY == 2 then m.(m22 := m.m22 - a)
      else m
    else m
  }

  /**
   * The sharing rule the comments describe: a miner at offset (dx, dy), within two
   * tiles on each axis and not on our own tile, claims every window cell other
   * than ours that lies within one step of it.
   */
  predicate Claims(dx: int, dy: int, i: int, j: int)
  {
    && -2 <= dx <= 2 && -2 <= dy <= 2
    && !(dx == 0 && dy == 0)
    && !(i == 1 && j == 1)
    && -1 <= (i - 1) - dx <= 1
    && -1 <= (j - 1) - dy <= 1
  }

  /** Which cells the written switch charges for key (kx, ky): the rule, except at (1, -2) and (1, 2). */
  predicate ChargedAsWritten(kx: int, ky: int, i: int, j: int)
  {
    if kx == 1 && ky == -2 then (i == 0 && j == 0) || (i == 1 && j == 0)
    else if kx == 1 && ky == 2 then (i == 2 && j == 0) || (i == 1 && j == 0)
    else Claims(kx, ky, i, j)
  }

  /** The written switch subtracts the allocation from exactly the cells ChargedAsWritten names. */
  lemma DeductAsWrittenCharges(m: Mat3, kx: int, ky: int)
    ensures forall i, j :: InWindow(i, j) ==>
      At(DeductAsWritten(m, kx, ky), i, j) == At(m, i, j) - (if ChargedAsWritten(kx, ky, i, j) then Alloc else 0)
  {
  }

  /** The switch keyed by the miner's true offset, with the two slant cases charging what the rule says. */
  function DeductIntended(m: Mat3, dx: int, dy: int): Mat3
  {
    var a := Alloc;
    if dx == 1 && dy == -2 then m.(m10 := m.m10 - a, m20 := m.m20 - a)
    else if dx == 1 && dy == 2 then m.(m12 := m.m12 - a, m22 := m.m22 - a)
    else DeductAsWritten(m, dx, dy)
  }

  /** The corrected switch charges exactly the cells the miner claims. */
  lemma DeductIntendedCharges(m: Mat3, dx: int, dy: int)
    ensures forall i, j :: InWindow(i, j) ==>
      At(DeductIntended(m, dx, dy), i, j) == At(m, i, j) - (if Claims(dx, dy, i, j) then Alloc else 0)
  {
    if !(dx == 1 && (dy == -2 || dy == 2)) {
      DeductAsWrittenCharges(m, dx, dy);
    }
  }

  /** A diagonal neighbour sitting on cell m00 is keyed (0, 0) by the written switch, which charges nothing. */
  lemma DiagonalNeighbourIgnored(m: Mat3)
    ensures var here, miner := Loc(5, 5), Loc(4, 4);
      && Claims(miner.x - here.x, miner.y - here.y, 0, 0)
      && DeductAsWritten(m, miner.x - here.x + 1, miner.y - here.y + 1) == m
  {
  }

  /** The (1, -2) case charges m00, which that miner is not next to, and misses m20, which it is. */
  lemma SlantCaseMischarges()
    ensures ChargedAsWritten(1, -2, 0, 0) && !Claims(1, -2, 0, 0)
    ensures !ChargedAsWritten(1, -2, 2, 0) && Claims(1, -2, 2, 0)
  {
  }

  /** One miner's deduction: as written (key = offset + 1) or corrected (key = offset). */
  function DeductFor(written: bool, m: Mat3, here: Loc, l: Loc): Mat3
  {
    if written then DeductAsWritten(m, l.x - here.x + 1, l.y - here.y + 1)
    else DeductIntended(m, l.x - here.x, l.y - here.y)
  }

  predicate ChargedFor(written: bool, here: Loc, l: Loc, i: int, j: int)
  {
    if written then ChargedAsWritten(l.x - here.x + 1, l.y - here.y + 1, i, j)
    else Claims(l.x - here.x, l.y - here.y, i, j)
  }

  lemma DeductForCharges(written: bool, m: Mat3, here: Loc, l: Loc)
    ensures forall i, j :: InWindow(i, j) ==>
      At(DeductFor(written, m, here, l), i, j) == At(m, i, j) - (if ChargedFor(written, here, l, i, j) then Alloc else 0)
  {
    if written {
      DeductAsWrittenCharges(m, l.x - here.x + 1, l.y - here.y + 1);
    } else {
      DeductIntendedCharges(m, l.x - here.x, l.y - here.y);
    }
  }

  /** The deduction loop over minersToConsider, first to last. */
  function Deductions(written: bool, m: Mat3, here: Loc, miners: seq<Loc>): Mat3
    decreases |miners|
  {
    if miners == [] then m
    else Deductions(written, DeductFor(written, m, here, miners[0]), here, miners[1..])
  }

  /** How many of the miners charge cell (i, j). */
  function Hits(written: bool, here: Loc, miners: seq<Loc>, i: int, j: int): nat
    decreases |miners|
  {
    if miners == [] then 0
    else (if ChargedFor(written, here, miners[0], i, j) then 1 else 0) + Hits(written, here, miners[1..], i, j)
  }

  /** After the loop, each cell has lost one allocation per miner that charges it. */
  lemma {:induction false} DeductionsHits(written: bool, m: Mat3, here: Loc, miners: seq<Loc>)
    ensures forall i, j :: InWindow(i, j) ==>
      At(Deductions(written, m, here, miners), i, j) == At(m, i, j) - Alloc * Hits(written, here, miners, i, j)
    decreases |miners|
  {
    if miners != [] {
      var m' := DeductFor(written, m, here, miners[0]);
      DeductForCharges(written, m, here, miners[0]);
      DeductionsHits(written, m', here, miners[1..]);
    }
  }

  lemma {:induction false} HitsAppend(written: bool, here: Loc, a: seq<Loc>, b: seq<Loc>, i: int, j: int)
    ensures Hits(written, here, a + b, i, j) == Hits(written, here, a, i, j) + Hits(written, here, b, i, j)
    decreases |a|
  {
    if a != [] {
      assert (a + b)[1..] == a[1..] + b;
      HitsAppend(written, here, a[1..], b, i, j);
    } else {
      assert a + b == b;
    }
  }

  /** The number of charges a cell receives depends only on which miners there are, not their order. */
  lemma {:induction false} HitsPermutation(written: bool, here: Loc, s: seq<Loc>, t: seq<Loc>, i: int, j: int)
    requires multiset(s) == multiset(t)
    ensures Hits(written, here, s, i, j) == Hits(written, here, t, i, j)
    decreases |s|
  {
    if s == [] {
      assert |t| == |multiset(t)| == 0;
    } else {
      var x := s[0];
      assert x in multiset(s);
      assert x in t;
      var k :| 0 <= k < |t| && t[k] == x;
      var t' := t[..k] + t[k + 1..];
      assert t == t[..k] + ([x] + t[k + 1..]);
      RemoveOne(s, t, k);
      HitsPermutation(written, here, s[1..], t', i, j);
      HitsAppend(written, here, t[..k], [x] + t[k + 1..], i, j);
      HitsAppend(written, here, [x], t[k + 1..], i, j);
      HitsAppend(written, here, t[..k], t[k + 1..], i, j);
      assert [x][1..] == [];
    }
  }

  /**
   * The order of minersToConsider does not matter: every ordering of the same
   * miners leaves the same window, so two miners that see each other and the same
   * resources reach the same split.
   */
  lemma DeductionsOrderIndependent(written: bool, m: Mat3, here: Loc, s: seq<Loc>, t: seq<Loc>)
    requires multiset(s) == multiset(t)
    ensures Deductions(written, m, here, s) == Deductions(written, m, here, t)
  {
    DeductionsHits(written, m, here, s);
    DeductionsHits(written, m, here, t);
    forall i, j | InWindow(i, j)
      ensures Get(Deductions(written, m, here, s), i, j) == Get(Deductions(written, m, here, t), i, j)
    {
      HitsPermutation(written, here, s, t, i, j);
    }
    Extensionality(Deductions(written, m, here, s), Deductions(written, m, here, t));
  }

  /** No miner ever charges our own tile. */
  lemma {:induction false} CentreNeverCharged(written: bool, here: Loc, miners: seq<Loc>)
    ensures Hits(written, here, miners, 1, 1) == 0
    decreases |miners|
  {
    if miners != [] {
      CentreNeverCharged(written, here, miners[1..]);
    }
  }

  // ---------------------------------------------------------------------------
  // assignResources
  // ---------------------------------------------------------------------------

  /** A robot of ours within radius 8, as senseNearbyRobots reports it. */
  datatype Nearby = Nearby(kind: RobotKind, loc: Loc)

  /** minersToConsider: the miners among the nearby robots, collected from the last to the first. */
  function MinersOf(nearby: seq<Nearby>): (r: seq<Loc>)
    ensures |r| <= |nearby|
    ensures forall l :: l in r <==> exists k :: 0 <= k < |nearby| && nearby[k].kind == Miner && nearby[k].loc == l
    decreases |nearby|
  {
    if nearby == [] then []
    else
      var n := |nearby| - 1;
      var rest := MinersOf(nearby[..n]);
      assert forall k :: 0 <= k < n ==> nearby[..n][k] == nearby[k];
      (if nearby[n].kind == Miner then [nearby[n].loc] else []) + rest
  }

  /**
   * assignResources, with the deduction either as written or corrected: past
   * seven nearby miners it gives up and reports no tiles (leaving the window as
   * it was); otherwise it refreshes the window, charges every cell one allocation
   * per miner charging it, and counts the positive cells with numPositive.
   */
  function AssignWith(written: bool, prev: Mat3, nearby: seq<Nearby>, here: Loc, dims: MapDims, sense: Sensing): (r: (int, Mat3))
    ensures |MinersOf(nearby)| > MaxMinersConsidered ==> r == (0, prev)
    ensures |MinersOf(nearby)| <= MaxMinersConsidered ==>
      && r.0 == NumPositive(r.1)
      && At(r.1, 1, 1) == Resources(sense, here)
      && forall i, j :: InWindow(i, j) ==>
           At(r.1, i, j) == At(BuildWindow(prev, here, dims, sense), i, j) - Alloc * Hits(written, here, MinersOf(nearby), i, j)
  {
    var miners := MinersOf(nearby);
    if |miners| > MaxMinersConsidered then (0, prev)
    else
      var w0 := BuildWindow(prev, here, dims, sense);
      var w := Deductions(written, w0, here, miners);
      assert At(w, 1, 1) == At(w0, 1, 1) && forall i, j :: InWindow(i, j) ==> At(w, i, j) == At(w0, i, j) - Alloc * Hits(written, here, miners, i, j) by {
        DeductionsHits(written, w0, here, miners);
        CentreNeverCharged(written, here, miners);
      }
      (NumPositive(w), w)
  }

  /** assignResources as the source computes it. */
  function AssignResourcesAsWritten(prev: Mat3, nearby: seq<Nearby>, here: Loc, dims: MapDims, sense: Sensing): (r: (int, Mat3))
    ensures r == AssignWith(true, prev, nearby, here, dims, sense)
    ensures 0 <= r.0 <= 9
  {
    AssignWith(true, prev, nearby, here, dims, sense)
  }

  /** assignResources with each miner keyed by its true offset and the slant cases following the rule. */
  function AssignResources(prev: Mat3, nearby: seq<Nearby>, here: Loc, dims: MapDims, sense: Sensing): (r: (int, Mat3))
    ensures |MinersOf(nearby)| > MaxMinersConsidered ==> r == (0, prev)
    ensures |MinersOf(nearby)| <= MaxMinersConsidered ==>
      && r.0 == NumPositive(r.1)
      && At(r.1, 1, 1) == Resources(sense, here)
      && forall i, j :: InWindow(i, j) ==>
           At(r.1, i, j) == At(BuildWindow(prev, here, dims, sense), i, j)
             - Alloc * Hits(false, here, MinersOf(nearby), i, j)
    ensures 0 <= r.0 <= 9
  {
    AssignWith(false, prev, nearby, here, dims, sense)
  }

  // ---------------------------------------------------------------------------
  // The nearest unassigned resource
  // ---------------------------------------------------------------------------

  predicate Adjacent(here: Loc, l: Loc)
  {
    -1 <= l.x - here.x <= 1 && -1 <= l.y - here.y <= 1
  }

  /** What a scan over resource tiles accepts: not adjacent, and for lead at least MIN_LEAD_AMOUNT. */
  function Candidate(here: Loc, sense: Sensing, leadScan: bool): Loc -> bool
  {
    (l: Loc) => !Adjacent(here, l) && (!leadScan || sense.lead(l) >= MinLeadAmount)
  }

  function RadiusFrom(here: Loc): Loc -> int
  {
    (l: Loc) => DistSq(l, here)
  }

  /** A tile that is not adjacent is at least two steps away on some axis. */
  lemma NonAdjacentFar(here: Loc, l: Loc)
    requires !Adjacent(here, l)
    ensures DistSq(l, here) >= 4
  {
    var dx, dy := l.x - here.x, l.y - here.y;
    if dx >= 2 || dx <= -2 {
      assert dx * dx >= 4;
    } else {
      assert dy * dy >= 4;
    }
  }

  /**
   * The closest non-adjacent gold tile; when there is none, the closest
   * non-adjacent lead tile with at least MIN_LEAD_AMOUNT; ties go to the later
   * tile in the sensed array.
   */
  function NearestUnassigned(here: Loc, gold: seq<Loc>, lead: seq<Loc>, sense: Sensing): (r: Option<Loc>)
    ensures AnyOk(gold, Candidate(here, sense, false)) ==>
      exists j :: IsBest(gold, Candidate(here, sense, false), RadiusFrom(here), j) && r == Some(gold[j])
    ensures !AnyOk(gold, Candidate(here, sense, false)) ==>
      && (r.None? <==> !AnyOk(lead, Candidate(here, sense, true)))
      && (r.Some? ==> exists j :: IsBest(lead, Candidate(here, sense, true), RadiusFrom(here), j) && r == Some(lead[j]))
  {
    ScanIsBest(gold, Candidate(here, sense, false), RadiusFrom(here));
    ScanIsBest(lead, Candidate(here, sense, true), RadiusFrom(here));
    match Scan(gold, Candidate(here, sense, false), RadiusFrom(here), 0)
    case Some(g) => Some(gold[g])
    case None =>
      match Scan(lead, Candidate(here, sense, true), RadiusFrom(here), 0)
      case Some(k) => Some(lead[k])
      case None => None
  }

  /**
   * One of the two loops: from the last tile down, skip adjacent tiles (and thin
   * lead), keep a strictly closer tile, and stop at the first radius of 4, which
   * nothing non-adjacent can beat.
   */
  method ScanTiles(here: Loc, tiles: seq<Loc>, sense: Sensing, leadScan: bool) returns (best: Option<nat>)
    ensures best == Scan(tiles, Candidate(here, sense, leadScan), RadiusFrom(here), 0)
  {
    ghost var ok, key := Candidate(here, sense, leadScan), RadiusFrom(here);
    best := None;
    var closest := 0;
    var i := |tiles|;
    while i > 0
      invariant 0 <= i <= |tiles|
      invariant best == Scan(tiles, ok, key, i)
      invariant best.Some? ==> closest == key(tiles[best.value])
    {
      i := i - 1;
      var loc := tiles[i];
      var dx, dy := loc.x - here.x, loc.y - here.y;
      if dx >= -1 && dx <= 1 && dy >= -1 && dy <= 1 {
        continue;
      }
      if leadScan && sense.lead(loc) < MinLeadAmount {
        continue;
      }
      var rSquare := dx * dx + dy * dy;
      if best.None? || rSquare < closest {
        closest := rSquare;
        best := Some(i);
        if rSquare == 4 {
          forall k | 0 <= k < i && ok(tiles[k])
            ensures key(tiles[i]) <= key(tiles[k])
          {
            NonAdjacentFar(here, tiles[k]);
          }
          ScanStable(tiles, ok, key, i, i);
          break;
        }
      }
    }
  }

  /** The two loops of runMiner: gold first, lead only when no gold tile was found. */
  method ClosestResource(here: Loc, gold: seq<Loc>, lead: seq<Loc>, sense: Sensing) returns (r: Option<Loc>)
    ensures r == NearestUnassigned(here, gold, lead, sense)
  {
    var g := ScanTiles(here, gold, sense, false);
    if g.Some? {
      return Some(gold[g.value]);
    }
    var l := ScanTiles(here, lead, sense, true);
    if l.Some? {
      return Some(lead[l.value]);
    }
    return None;
  }

  // ---------------------------------------------------------------------------
  // findClosestFighter and the choice of target
  // ---------------------------------------------------------------------------

  /** A visible ally: its type, whether it is in PORTABLE mode, and where it is. */
  datatype Ally = Ally(kind: RobotKind, portable: bool, loc: Loc)

  /** Worth following: it can attack, and it is not a watchtower rooted in place. */
  predicate Fighter(a: Ally)
  {
    CanAttack(a.kind) && !(a.kind == Watchtower && !a.portable)
  }

  function DistFrom(from: Loc): Ally -> int
  {
    (a: Ally) => DistSq(from, a.loc)
  }

  /** findClosestFighter: the fighter closest to where the miner will be, ties to the later ally. */
  function FindClosestFighter(allies: seq<Ally>, from: Loc): (r: Option<Loc>)
    ensures r.None? <==> !AnyOk(allies, Fighter)
    ensures r.Some? ==> exists j :: IsBest(allies, Fighter, DistFrom(from), j) && r.value == allies[j].loc
  {
    ScanIsBest(allies, Fighter, DistFrom(from));
    match Scan(allies, Fighter, DistFrom(from), 0)
    case Some(j) => Some(allies[j].loc)
    case None => None
  }

  /** The resource still holds something: more than one lead or any gold. */
  predicate StillRich(sense: Sensing, l: Loc)
  {
    sense.lead(l) > 1 || sense.gold(l) > 0
  }

  /** The old target survives when the miner is not yet within distance squared 2 of it. */
  predicate StillHeading(here: Loc, last: Option<Loc>)
  {
    last.Some? && DistSq(here, last.value) > 2
  }

  /**
   * The next mining target. `grid` is what the demand grid's search returns and
   * `random` the random tile the source draws when everything else fails.
   */
  function ChooseTarget(here: Loc, last: Option<Loc>, closest: Option<Loc>, sense: Sensing,
                        fighter: Option<Loc>, grid: Option<Loc>, random: Loc): (t: Loc)
    ensures closest.Some? && StillRich(sense, closest.value) ==> t == closest.value
    ensures !(closest.Some? && StillRich(sense, closest.value)) ==>
      if fighter.Some? then t == fighter.value
      else if StillHeading(here, last) then t == last.value
      else if grid.Some? then t == grid.value
      else t == random
  {
    var kept := if last.Some? && DistSq(here, last.value) <= 2 then None else last;
    var found := if closest.Some? && StillRich(sense, closest.value) then closest else None;
    var found' := if found.None? then fighter else found;
    var target := if found'.Some? then found' else kept;
    var target' := if target.None? then grid else target;
    target'.GetOr(random)
  }

  /**
   * The rest of runMiner once no enemy is in range: assignResources' count
   * decides. With at least StayThreshold tiles left to us the miner remembers its
   * own tile and does not path; otherwise it paths toward ChooseTarget's choice,
   * which is also what it remembers. The window is carried to the next turn.
   */
  function MinerStep(prev: Mat3, nearby: seq<Nearby>, here: Loc, dims: MapDims, sense: Sensing, last: Option<Loc>,
                     closest: Option<Loc>, fighter: Option<Loc>, grid: Option<Loc>, random: Loc): (r: (Loc, bool, Mat3))
    ensures |MinersOf(nearby)| > MaxMinersConsidered ==> r.1 && r.2 == prev
    ensures |MinersOf(nearby)| <= MaxMinersConsidered ==> (!r.1 <==> NumPositive(r.2) >= StayThreshold)
    ensures |MinersOf(nearby)| <= MaxMinersConsidered ==> At(r.2, 1, 1) == Resources(sense, here)
    ensures !r.1 ==> r.0 == here
    ensures r.1 ==> r.0 == ChooseTarget(here, last, closest, sense, fighter, grid, random)
  {
    var (numAssigned, window) := AssignResources(prev, nearby, here, dims, sense);
    if numAssigned >= StayThreshold then (here, false, window)
    else (ChooseTarget(here, last, closest, sense, fighter, grid, random), true, window)
  }

  /**
   * A miner that stays has at least three distinct window cells with resources
   * left to it: numPositive counts two cells twice, so five can come from no
   * fewer than three.
   */
  lemma StayNeedsThreeCells(prev: Mat3, nearby: seq<Nearby>, here: Loc, dims: MapDims, sense: Sensing, last: Option<Loc>,
                            closest: Option<Loc>, fighter: Option<Loc>, grid: Option<Loc>, random: Loc)
    ensures var r := MinerStep(prev, nearby, here, dims, sense, last, closest, fighter, grid, random);
      !r.1 ==> PositiveCells(r.2) >= 3
  {
    var r := MinerStep(prev, nearby, here, dims, sense, last, closest, fighter, grid, random);
    NumPositiveWeights(r.2);
  }

  /** The next target is always one of the candidates runMiner considers. */
  lemma ChooseTargetIsCandidate(here: Loc, last: Option<Loc>, closest: Option<Loc>, sense: Sensing,
                                fighter: Option<Loc>, grid: Option<Loc>, random: Loc)
    ensures var t := ChooseTarget(here, last, closest, sense, fighter, grid, random);
      || Some(t) == closest || Some(t) == fighter || Some(t) == last || Some(t) == grid || t == random
  {
  }

}
