/**
 * The movement strategies pathfinding is parameterised by. Each answers whether
 * the robot may step in a direction now (canMove) and when it has run out of
 * patience (canMoveIfImpatient), whether it is at its goal, and what moving
 * records. The engine's own canMove, the map, and the rubble the robot senses
 * are inputs.
 */
module Movement {
  import opened Engine

  /** What a strategy can ask the engine this turn. */
  datatype World = World(
    here: Loc,                 // rc.getLocation()
    startOfTurn: Loc,          // RobotPlayer.locAtStartOfTurn
    dims: MapDims,
    rubble: Loc -> int,        // rc.senseRubble
    engineCanMove: Dir -> bool // rc.canMove
  )

  /** An enemy robot as cautious movement sees it; actionRadiusSq is its type's action radius squared. */
  datatype Enemy = Enemy(kind: RobotKind, loc: Loc, actionRadiusSq: int)

  datatype Strategy =
    | Simple
    | RubbleAverse(threshold: int)
    | Cautious(enemies: seq<Enemy>)

  /** Every strategy's atGoal: the robot stands on the target. */
  function AtGoal(w: World, target: Loc): (r: bool)
    ensures r <==> w.here == target
  {
    w.here == target
  }

  /** The enemy can attack and loc is within its action radius. */
  predicate Covers(e: Enemy, loc: Loc)
  {
    CanAttack(e.kind) && DistSq(loc, e.loc) <= e.actionRadiusSq
  }

  predicate InRange(loc: Loc, enemies: seq<Enemy>)
  {
    exists k :: 0 <= k < |enemies| && Covers(enemies[k], loc)
  }

  /** inEnemyRange: scan the enemies in order, skip those that cannot attack, stop at the first in range. */
  method InEnemyRange(loc: Loc, enemies: seq<Enemy>) returns (b: bool)
    ensures b <==> InRange(loc, enemies)
  {
    var k := 0;
    while k < |enemies|
      invariant 0 <= k <= |enemies|
      invariant forall i :: 0 <= i < k ==> !Covers(enemies[i], loc)
    {
      var enemy := enemies[k];
      if !CanAttack(enemy.kind) {
        k := k + 1;
        continue;
      }
      var distSq := DistSq(loc, enemy.loc);
      if distSq <= enemy.actionRadiusSq {
        return true;
      }
      k := k + 1;
    }
    return false;
  }

  /**
   * canMove. The simple strategy asks the engine. The rubble-averse one refuses a
   * destination on the map whose rubble is at the threshold or above, and
   * otherwise asks the engine. The cautious one needs the engine's yes and a
   * destination out of every enemy's reach.
   */
  function CanMove(s: Strategy, w: World, d: Dir): (r: bool)
    ensures r ==> w.engineCanMove(d)
    ensures s.RubbleAverse? && OnMap(w.dims, Add(w.here, d)) && w.rubble(Add(w.here, d)) >= s.threshold ==> !r
    ensures s.RubbleAverse? ==> (r <==> w.engineCanMove(d) && !(OnMap(w.dims, Add(w.here, d)) && w.rubble(Add(w.here, d)) >= s.threshold))
    ensures s.Cautious? ==> (r <==> w.engineCanMove(d) && !InRange(Add(w.here, d), s.enemies))
    ensures s.Simple? ==> (r <==> w.engineCanMove(d))
  {
    match s
    case Simple => w.engineCanMove(d)
    case RubbleAverse(threshold) =>
      var adj := Add(w.here, d);
      if OnMap(w.dims, adj) && w.rubble(adj) >= threshold then false else w.engineCanMove(d)
    case Cautious(enemies) =>
      if !w.engineCanMove(d) then false else !InRange(Add(w.here, d), enemies)
  }

  /**
   * canMoveIfImpatient: the simple and rubble-averse strategies drop every check
   * but the engine's; the cautious one keeps its enemy check.
   */
  function CanMoveIfImpatient(s: Strategy, w: World, d: Dir): (r: bool)
    ensures !s.Cautious? ==> (r <==> w.engineCanMove(d))
    ensures s.Cautious? ==> r == CanMove(s, w, d)
  {
    match s
    case Simple => w.engineCanMove(d)
    case RubbleAverse(_) => w.engineCanMove(d)
    case Cautious(_) => CanMove(s, w, d)
  }

  /** Impatience only ever relaxes a strategy. */
  lemma ImpatienceRelaxes(s: Strategy, w: World, d: Dir)
    ensures CanMove(s, w, d) ==> CanMoveIfImpatient(s, w, d)
    ensures CanMoveIfImpatient(s, w, d) ==> w.engineCanMove(d)
  {
  }

  /**
   * move: the engine moves the robot; the simple and rubble-averse strategies
   * record locAtStartOfTurn + d as locAfterMovement, the cautious one leaves it.
   */
  function Move(s: Strategy, w: World, d: Dir, locAfterMovement: Loc): (r: Loc)
    ensures s.Cautious? ==> r == locAfterMovement
    ensures !s.Cautious? ==> r.x == w.startOfTurn.x + DirDx(d) && r.y == w.startOfTurn.y + DirDy(d)
  {
    match s
    case Cautious(_) => locAfterMovement
    case _ => Add(w.startOfTurn, d)
  }
}
