/**
 * The BFS wrapper: a navigator that follows a best-direction oracle while that
 * leads to cells not visited since the target last changed, and otherwise falls
 * back to a greedy pathfinding step for a few turns, if enough bytecodes remain.
 * The oracle (getBestDir, abstract in the source), the engine's canMove, the
 * bytecode counter and the greedy step itself are inputs.
 */
module Bfs {
  import opened Wrappers
  import opened Engine
  import opened BooleanGrid

  /** BYTECODE_REMAINING */
  const BytecodeRemaining: int := 2500
  /** GREEDY_TURNS */
  const GreedyTurns: int := 4

  datatype State = State(turnsGreedy: int, currentTarget: Option<Loc>, visited: Grid)

  /** What one call of move does. */
  datatype Action =
    | Idle               // returned without moving
    | Stepped(dir: Dir)  // moved in the oracle's direction
    | Greedy             // handed over to the greedy pathfinding step
    | Threw              // the visited lookup indexed outside the bitset

  /** reset: greedy turns back to 0 and the visited set cleared. */
  function ResetState(b: State, c: Consts): (r: State)
    requires ValidConsts(c)
    ensures r.turnsGreedy == 0 && r.currentTarget == b.currentTarget && Valid(r.visited, c)
    ensures forall x, y :: InRange(c, x, y) ==> Get(r.visited, c, x, y) == Some(false)
  {
    var r := b.(turnsGreedy := 0, visited := Reset(c));
    forall x, y | InRange(c, x, y)
      ensures Get(r.visited, c, x, y) == Some(false)
    {
      ResetAllFalse(c, x, y);
    }
    r
  }

  /** The target differs from the current one (distanceSquaredTo > 0), or there is none yet. */
  predicate TargetChanged(b: State, target: Loc)
  {
    b.currentTarget.None? || DistSq(target, b.currentTarget.value) > 0
  }

  /**
   * update: a first or changed target resets, the same target spends a greedy
   * turn; then the target is recorded and the robot's cell marked visited.
   */
  function Update(b: State, c: Consts, here: Loc, target: Loc): (r: State)
    requires ValidConsts(c) && Valid(b.visited, c) && InRange(c, here.x, here.y)
    ensures Valid(r.visited, c) && r.currentTarget == Some(target)
    ensures r.turnsGreedy == if TargetChanged(b, target) then 0 else b.turnsGreedy - 1
    ensures GetAt(r.visited, c, here) == Some(true)
    ensures forall x, y :: InRange(c, x, y) && (x, y) != (here.x, here.y) ==>
      Get(r.visited, c, x, y) == if TargetChanged(b, target) then Some(false) else Get(b.visited, c, x, y)
  {
    var b1 := if TargetChanged(b, target) then ResetState(b, c) else b.(turnsGreedy := b.turnsGreedy - 1);
    PutReads(b1.visited, c, here.x, here.y, true);
    var r := b1.(currentTarget := Some(target), visited := PutAt(b1.visited, c, here, true).value);
    forall x, y | InRange(c, x, y) && (x, y) != (here.x, here.y)
      ensures Get(r.visited, c, x, y) == Get(b1.visited, c, x, y)
    {
      PutFrame(b1.visited, c, here.x, here.y, true, x, y);
    }
    r
  }

  /** The same target twice in a row never resets. */
  lemma SameTargetKeeps(b: State, target: Loc)
    requires b.currentTarget == Some(target)
    ensures !TargetChanged(b, target)
  {
  }

  /** activateGreedy */
  function ActivateGreedy(b: State): (r: State)
    ensures r.turnsGreedy == GreedyTurns && r.currentTarget == b.currentTarget && r.visited == b.visited
  {
    b.(turnsGreedy := GreedyTurns)
  }

  /** The inputs move reads from the engine and from the unseen oracle. */
  datatype Env = Env(
    movementReady: bool,        // rc.isMovementReady()
    here: Loc,                  // rc.getLocation()
    startOfTurn: Loc,           // RobotPlayer.locAtStartOfTurn
    bestDir: Option<Dir>,       // getBestDir(target)
    engineCanMove: Dir -> bool, // rc.canMove
    bytecodesLeft: int          // Clock.getBytecodesLeft()
  )

  /** The non-greedy branch runs: greedy was not requested and no greedy turns remain. */
  predicate FollowsOracle(b: State, greedy: bool)
  {
    !greedy && b.turnsGreedy <= 0
  }

  /**
   * move(target, greedy). Returns the new state, what was done, and
   * locAfterMovement.
   */
  function Move(b: State, c: Consts, target: Option<Loc>, greedy: bool, env: Env, locAfterMovement: Loc): (r: (State, Action, Loc))
    requires ValidConsts(c) && Valid(b.visited, c) && InRange(c, env.here.x, env.here.y)
    ensures target.None? || !env.movementReady || (target.Some? && DistSq(env.here, target.value) == 0) ==>
      r == (b, Idle, locAfterMovement)
    ensures var (b', act, loc') := r;
      && (act != Idle || loc' == locAfterMovement)
      && (act != Idle ==> target.Some?)
      && (act.Stepped? ==> (
            var u := Update(b, c, env.here, target.value);
            && FollowsOracle(u, greedy) && env.bestDir == Some(act.dir) && env.engineCanMove(act.dir)
            && GetAt(u.visited, c, Add(env.here, act.dir)) == Some(false)
            && b' == u && loc' == Add(env.startOfTurn, act.dir)))
      && (act.Greedy? ==> (
            var u := Update(b, c, env.here, target.value);
            && env.bytecodesLeft >= BytecodeRemaining
            && b'.turnsGreedy == (if FollowsOracle(u, greedy) then GreedyTurns else u.turnsGreedy) - 1
            && b'.visited == u.visited && b'.currentTarget == target
            && loc' == locAfterMovement))
      && (act.Threw? ==> (
            && env.bestDir.Some?
            && GetAt(Update(b, c, env.here, target.value).visited, c, Add(env.here, env.bestDir.value)).None?))
  {
    if target.None? || !env.movementReady || DistSq(env.here, target.value) == 0 then
      (b, Idle, locAfterMovement)
    else
      var u := Update(b, c, env.here, target.value);
      if FollowsOracle(u, greedy) && env.bestDir.Some? && GetAt(u.visited, c, Add(env.here, env.bestDir.value)).None? then
        (u, Threw, locAfterMovement)
      else if FollowsOracle(u, greedy) && env.bestDir.Some? && GetAt(u.visited, c, Add(env.here, env.bestDir.value)) == Some(false) then
        var dir := env.bestDir.value;
        if !env.engineCanMove(dir) then (u, Idle, locAfterMovement)
        else (u, Stepped(dir), Add(env.startOfTurn, dir))
      else
        var u' := if FollowsOracle(u, greedy) then ActivateGreedy(u) else u;
        if env.bytecodesLeft >= BytecodeRemaining then (u'.(turnsGreedy := u'.turnsGreedy - 1), Greedy, locAfterMovement)
        else (u', Idle, locAfterMovement)
  }

  /**
   * The oracle's direction is taken exactly when the non-greedy branch runs, it
   * leads to an unvisited cell and the engine allows it; a revisit (or no
   * direction) switches to greedy mode for the next four turns instead.
   */
  lemma OracleOrGreedy(b: State, c: Consts, target: Loc, env: Env, locAfterMovement: Loc)
    requires ValidConsts(c) && Valid(b.visited, c) && InRange(c, env.here.x, env.here.y)
    requires env.movementReady && DistSq(env.here, target) > 0
    requires FollowsOracle(Update(b, c, env.here, target), false)
    ensures var u := Update(b, c, env.here, target);
      var r := Move(b, c, Some(target), false, env, locAfterMovement);
      && (r.1.Stepped? <==> (
            && env.bestDir.Some?
            && GetAt(u.visited, c, Add(env.here, env.bestDir.value)) == Some(false)
            && env.engineCanMove(env.bestDir.value)))
      && ((env.bestDir.None? || GetAt(u.visited, c, Add(env.here, env.bestDir.value)) == Some(true)) ==>
            r.0.turnsGreedy == (if env.bytecodesLeft >= BytecodeRemaining then GreedyTurns - 1 else GreedyTurns))
  {
  }

  /** A direction whose cell lies on the largest map never makes the visited lookup throw. */
  lemma NoThrowOnMap(b: State, c: Consts, target: Option<Loc>, greedy: bool, env: Env, locAfterMovement: Loc)
    requires ValidConsts(c) && Valid(b.visited, c) && InRange(c, env.here.x, env.here.y)
    requires env.bestDir.Some? ==> InRange(c, Add(env.here, env.bestDir.value).x, Add(env.here, env.bestDir.value).y)
    ensures !Move(b, c, target, greedy, env, locAfterMovement).1.Threw?
  {
    if target.Some? && env.bestDir.Some? && env.movementReady && DistSq(env.here, target.value) != 0 {
      var u := Update(b, c, env.here, target.value);
      var l := Add(env.here, env.bestDir.value);
      InRangeIndex(c, l.x, l.y);
    }
  }
}
