/**
 * Bug navigation. Each turn the robot first tries to step toward its target
 * (straight, then the better of the two neighbouring directions). When none of
 * these is allowed it enters bug mode: it keeps a side (left or right) and turns
 * through the eight directions from dirAtStart until one is allowed, counting how
 * far it has turned. It leaves bug mode once it has run out of patience, or once it
 * has turned back to where it started (or all the way round) no farther from the
 * target than when bug mode began.
 *
 * The engine's directionTo for the current location and target is an input
 * (toTarget); so are the movement strategy's view of the world and the random
 * stream.
 */
module Pathfinding {
  import opened Wrappers
  import opened Engine
  import opened Movement
  import Arith

  /** PATIENCE */
  const Patience: int := 3

  /**
   * A movement strategy object: its identity, which setTarget compares, and its
   * current contents (a cautious strategy's enemy list is updated in place).
   */
  datatype Handle = Handle(id: nat, strategy: Strategy)

  /** The static navigation state. dirAtStart and lastMoveDir are only read once bug mode has set them. */
  datatype Nav = Nav(
    movement: Option<Handle>,
    target: Option<Loc>,
    inBugMode: bool,
    isGoingLeft: bool,
    distSqAtStart: int,
    dirAtStart: Dir,
    lastMoveDir: Dir,
    turnsSinceBlocked: int,
    numTurns: int
  )

  const Initial := Nav(None, None, false, false, 0, 0, 0, 0, 0)

  /** The bug-mode fields other than inBugMode agree. */
  predicate SameBugFields(a: Nav, b: Nav)
  {
    && a.isGoingLeft == b.isGoingLeft
    && a.distSqAtStart == b.distSqAtStart
    && a.dirAtStart == b.dirAtStart
    && a.lastMoveDir == b.lastMoveDir
    && a.turnsSinceBlocked == b.turnsSinceBlocked
    && a.numTurns == b.numTurns
  }

  /**
   * setTarget: a new target or a different strategy object replaces both and
   * leaves bug mode; the same target with the same object changes nothing (the
   * object's contents are whatever the caller last gave it).
   */
  function SetTarget(s: Nav, target: Loc, h: Handle): (r: Nav)
    ensures r.target == Some(target) && r.movement == Some(h)
    ensures SameBugFields(r, s)
    ensures r.inBugMode <==> s.inBugMode && s.target == Some(target) && s.movement.Some? && s.movement.value.id == h.id
  {
    if s.target != Some(target) || s.movement.None? || s.movement.value.id != h.id then
      s.(target := Some(target), inBugMode := false, movement := Some(h))
    else
      s.(movement := Some(h))
  }

  /** Setting the same target with the same object twice is the same as once. */
  lemma SetTargetIdempotent(s: Nav, target: Loc, h: Handle)
    ensures SetTarget(SetTarget(s, target, h), target, h) == SetTarget(s, target, h)
  {
  }

  /** The exit test: out of patience, or turned back (or fully round) no farther than at the start. */
  predicate LeavesBugMode(s: Nav, distSq: int)
  {
    s.turnsSinceBlocked >= Patience || ((s.numTurns <= 0 || s.numTurns >= 8) && distSq <= s.distSqAtStart)
  }

  predicate StaysInBugMode(s: Nav, distSq: int)
  {
    s.inBugMode && !LeavesBugMode(s, distSq)
  }

  /**
   * The direct-mode candidate: toTarget when allowed; otherwise the side
   * neighbour whose square is strictly closer to the target first (the right one
   * on a tie), then the other.
   */
  function DirectChoice(st: Strategy, w: World, target: Loc, toTarget: Dir): (r: Option<Dir>)
    ensures r.Some? ==> CanMove(st, w, r.value)
    ensures r.Some? ==> r.value == toTarget || r.value == RotateLeft(toTarget) || r.value == RotateRight(toTarget)
    ensures r.None? <==> !CanMove(st, w, toTarget) && !CanMove(st, w, RotateLeft(toTarget)) && !CanMove(st, w, RotateRight(toTarget))
    ensures CanMove(st, w, toTarget) ==> r == Some(toTarget)
    ensures r.Some? && r.value != toTarget && CanMove(st, w, RotateLeft(toTarget)) && CanMove(st, w, RotateRight(toTarget)) ==>
      (r.value == RotateLeft(toTarget) <==>
        DistSq(Add(w.here, RotateLeft(toTarget)), target) < DistSq(Add(w.here, RotateRight(toTarget)), target))
  {
    if CanMove(st, w, toTarget) then Some(toTarget)
    else
      var left := RotateLeft(toTarget);
      var right := RotateRight(toTarget);
      var leftFirst := DistSq(Add(w.here, left), target) < DistSq(Add(w.here, right), target);
      var first := if leftFirst then left else right;
      var second := if leftFirst then right else left;
      if CanMove(st, w, first) then Some(first)
      else if CanMove(st, w, second) then Some(second)
      else None
  }

  /**
   * resetBugMode: remember the distance to the target, start turning from
   * directionTo(target), zero both counters, and draw the side at random.
   */
  function ResetBugMode(s: Nav, here: Loc, target: Loc, toTarget: Dir, rng: Rng): (r: (Nav, Rng))
    ensures r.0.distSqAtStart == DistSq(here, target)
    ensures r.0.dirAtStart == toTarget && r.0.lastMoveDir == toTarget
    ensures r.0.numTurns == 0 && r.0.turnsSinceBlocked == 0
    ensures r.0.isGoingLeft == rng.bits(rng.pos) && r.1 == Rng(rng.bits, rng.pos + 1)
    ensures r.0.inBugMode == s.inBugMode && r.0.target == s.target && r.0.movement == s.movement
  {
    var (side, rng') := rng.NextBool();
    (ResetCounters(s, here, target, toTarget).(isGoingLeft := side), rng')
  }

  /** Everything resetBugMode does except choosing the side. */
  function ResetCounters(s: Nav, here: Loc, target: Loc, toTarget: Dir): (r: Nav)
    ensures r.isGoingLeft == s.isGoingLeft && r.inBugMode == s.inBugMode
    ensures r.target == s.target && r.movement == s.movement
  {
    s.(distSqAtStart := DistSq(here, target), dirAtStart := toTarget, lastMoveDir := toTarget,
       numTurns := 0, turnsSinceBlocked := 0)
  }

  /** A freshly reset bug mode would pass the exit test at once from the spot where it began. */
  lemma ResetWouldExitInPlace(s: Nav, here: Loc, target: Loc, toTarget: Dir, rng: Rng)
    ensures LeavesBugMode(ResetBugMode(s, here, target, toTarget, rng).0, DistSq(here, target))
  {
  }

  /** The side square bug mode checks against the map edge: left of lastMoveDir going left, right of it otherwise. */
  function EdgeProbe(s: Nav): Dir
  {
    if s.isGoingLeft then RotateLeft(s.lastMoveDir) else RotateRight(s.lastMoveDir)
  }

  /**
   * The map-edge reset as written: the side is flipped and then resetBugMode
   * draws a fresh one, so the flip is lost.
   */
  function EdgeResetAsWritten(s: Nav, here: Loc, target: Loc, toTarget: Dir, rng: Rng): (r: (Nav, Rng))
  {
    ResetBugMode(s.(isGoingLeft := !s.isGoingLeft), here, target, toTarget, rng)
  }

  /** The side after the as-written edge reset does not depend on the side before it. */
  lemma FlipOverwritten(s: Nav, here: Loc, target: Loc, toTarget: Dir, rng: Rng)
    ensures EdgeResetAsWritten(s, here, target, toTarget, rng).0.isGoingLeft == rng.bits(rng.pos)
    ensures EdgeResetAsWritten(s, here, target, toTarget, rng)
         == EdgeResetAsWritten(s.(isGoingLeft := !s.isGoingLeft), here, target, toTarget, rng)
  {
  }

  /** The map-edge reset as intended: the counters restart and the robot keeps the wall on its other side. */
  function EdgeReset(s: Nav, here: Loc, target: Loc, toTarget: Dir): (r: Nav)
    ensures r.isGoingLeft == !s.isGoingLeft
    ensures r.distSqAtStart == DistSq(here, target)
    ensures r.dirAtStart == toTarget && r.lastMoveDir == toTarget
    ensures r.numTurns == 0 && r.turnsSinceBlocked == 0
    ensures r.inBugMode == s.inBugMode && r.target == s.target && r.movement == s.movement
  {
    ResetCounters(s, here, target, toTarget).(isGoingLeft := !s.isGoingLeft)
  }

  /** The next probe: going left turns right, going right turns left. */
  function Turn(d: Dir, goingLeft: bool): Dir
  {
    if goingLeft then RotateRight(d) else RotateLeft(d)
  }

  /** The i-th direction bug mode probes from start. */
  function ProbeDir(start: Dir, i: nat, goingLeft: bool): Dir
  {
    if i == 0 then start else Turn(ProbeDir(start, i - 1, goingLeft), goingLeft)
  }

  lemma {:induction false} ProbeDirIs(start: Dir, i: nat, goingLeft: bool)
    ensures ProbeDir(start, i, goingLeft) == if goingLeft then (start + i) % 8 else (start - i) % 8
  {
    if i > 0 {
      ProbeDirIs(start, i - 1, goingLeft);
      if goingLeft {
        Arith.ModShift(start + i - 1, 1, 8);
      } else {
        Arith.ModShift(start - i + 1, 7, 8);
        Arith.DivMod(start - i + 8, 8, (start - i) / 8 + 1, (start - i) % 8);
      }
    }
  }

  /** The first eight probes are the eight directions. */
  lemma ProbesCover(start: Dir, goingLeft: bool, e: Dir)
    ensures exists i :: 0 <= i < 8 && ProbeDir(start, i, goingLeft) == e
  {
    var i := if goingLeft then NumRightRotations(start, e) else NumLeftRotations(start, e);
    ProbeDirIs(start, i, goingLeft);
  }

  /** The test a probe must pass: the impatient one while out of patience, canMove otherwise. */
  predicate Allowed(st: Strategy, w: World, d: Dir, turnsSinceBlocked: int)
  {
    if turnsSinceBlocked >= Patience then CanMoveIfImpatient(st, w, d) else CanMove(st, w, d)
  }

  /** The counter value in force at probe i: the incoming value for the first, 0 after any failure. */
  function CounterAt(i: nat, turnsSinceBlocked: int): int
  {
    if i == 0 then turnsSinceBlocked else 0
  }

  /**
   * The probing loop: up to eight directions from start, each tested under the
   * current counter, which drops to 0 after every failure. Returns the first
   * direction that passes and the counter as left.
   */
  method Probe(st: Strategy, w: World, start: Dir, goingLeft: bool, turnsSinceBlocked0: int)
    returns (dir: Option<Dir>, turnsSinceBlocked: int)
    ensures dir.Some? ==> exists i :: (0 <= i < 8 && dir.value == ProbeDir(start, i, goingLeft)
      && Allowed(st, w, dir.value, CounterAt(i, turnsSinceBlocked0))
      && forall j :: 0 <= j < i ==> !Allowed(st, w, ProbeDir(start, j, goingLeft), CounterAt(j, turnsSinceBlocked0)))
    ensures dir.None? <==> forall i :: 0 <= i < 8 ==> !Allowed(st, w, ProbeDir(start, i, goingLeft), CounterAt(i, turnsSinceBlocked0))
    ensures dir.None? ==> forall e: Dir :: e != start ==> !CanMove(st, w, e)
    ensures dir.Some? ==> CanMoveIfImpatient(st, w, dir.value)
    ensures turnsSinceBlocked == if Allowed(st, w, start, turnsSinceBlocked0) then turnsSinceBlocked0 else 0
  {
    var possibleDir := start;
    turnsSinceBlocked := turnsSinceBlocked0;
    var i := 8;
    while i > 0
      invariant 0 <= i <= 8
      invariant possibleDir == ProbeDir(start, 8 - i, goingLeft)
      invariant turnsSinceBlocked == CounterAt(8 - i, turnsSinceBlocked0)
      invariant i < 8 ==> !Allowed(st, w, start, turnsSinceBlocked0)
      invariant forall j :: 0 <= j < 8 - i ==> !Allowed(st, w, ProbeDir(start, j, goingLeft), CounterAt(j, turnsSinceBlocked0))
    {
      i := i - 1;
      var ok := if turnsSinceBlocked >= Patience then CanMoveIfImpatient(st, w, possibleDir) else CanMove(st, w, possibleDir);
      if ok {
        ImpatienceRelaxes(st, w, possibleDir);
        return Some(possibleDir), turnsSinceBlocked;
      }
      possibleDir := Turn(possibleDir, goingLeft);
      turnsSinceBlocked := 0;
    }
    dir := None;
    forall e: Dir | e != start
      ensures !CanMove(st, w, e)
    {
      ProbesCover(start, goingLeft, e);
      var k :| 0 <= k < 8 && ProbeDir(start, k, goingLeft) == e;
      assert k != 0;
    }
  }

  /** The remainders the rotation counts take, for directions 0..7. */
  lemma RotationMod(start: Dir, end: Dir)
    ensures (end - start + 8) % 8 == if end >= start then end - start else end - start + 8
    ensures (start - end + 8) % 8 == if start >= end then start - end else start - end + 8
    ensures end % 8 == end && (end + 8) % 8 == end && (end - 8) % 8 == end
  {
    Arith.DivMod(end, 8, 0, end);
    Arith.DivMod(end + 8, 8, 1, end);
    Arith.DivMod(end - 8, 8, -1, end);
    if end >= start {
      Arith.DivMod(end - start + 8, 8, 1, end - start);
    } else {
      Arith.DivMod(end - start + 8, 8, 0, end - start + 8);
    }
    if start >= end {
      Arith.DivMod(start - end + 8, 8, 1, start - end);
    } else {
      Arith.DivMod(start - end + 8, 8, 0, start - end + 8);
    }
  }

  /** numRightRotations: (end - start + 8) % 8, the operand being positive so Java's % agrees. */
  function NumRightRotations(start: Dir, end: Dir): (n: int)
    ensures 0 <= n < 8
    ensures ProbeDir(start, n, true) == end
  {
    var n := (end - start + 8) % 8;
    RotationMod(start, end);
    ProbeDirIs(start, n, true);
    n
  }

  /** numLeftRotations: (start - end + 8) % 8. */
  function NumLeftRotations(start: Dir, end: Dir): (n: int)
    ensures 0 <= n < 8
    ensures ProbeDir(start, n, false) == end
  {
    var n := (start - end + 8) % 8;
    RotationMod(start, end);
    ProbeDirIs(start, n, false);
    n
  }

  /** The right and left rotation counts between two directions add up to a full turn, or to nothing when they coincide. */
  lemma RotationsSum(start: Dir, end: Dir)
    ensures NumRightRotations(start, end) + NumLeftRotations(start, end) == if start == end then 0 else 8
  {
  }

  /** calculateBugRotation: how much further round the side's way the new move is than the last one. */
  function BugRotation(s: Nav, moveDir: Dir): (n: int)
    ensures -8 < n < 8
    ensures s.isGoingLeft ==> n == NumRightRotations(s.dirAtStart, moveDir) - NumRightRotations(s.dirAtStart, s.lastMoveDir)
    ensures !s.isGoingLeft ==> n == NumLeftRotations(s.dirAtStart, moveDir) - NumLeftRotations(s.dirAtStart, s.lastMoveDir)
  {
    if s.isGoingLeft then
      NumRightRotations(s.dirAtStart, moveDir) - NumRightRotations(s.dirAtStart, s.lastMoveDir)
    else
      NumLeftRotations(s.dirAtStart, moveDir) - NumLeftRotations(s.dirAtStart, s.lastMoveDir)
  }

  /** Moving in the direction bug mode started from adds no turning. */
  lemma NoTurnAtStart(s: Nav)
    requires s.lastMoveDir == s.dirAtStart
    ensures BugRotation(s, s.dirAtStart) == 0
  {
  }

  /**
   * The next dirAtStart after a bug move: two steps left of it going left, the
   * move itself going right. Going right rotates left then right, which cancels;
   * by symmetry with the left side two right rotations were probably meant, but
   * the model keeps what the source does.
   */
  function NextStart(moveDir: Dir, goingLeft: bool): (r: Dir)
    ensures goingLeft ==> r == (moveDir + 6) % 8
    ensures !goingLeft ==> r == moveDir
  {
    if goingLeft then RotateLeft(RotateLeft(moveDir)) else RotateRight(RotateLeft(moveDir))
  }

  /**
   * One bug-mode turn from state s (already in bug mode): the map-edge check,
   * the counter increment, the probes, and on success the move's bookkeeping.
   */
  method BugStep(s: Nav, st: Strategy, w: World, target: Loc, toTarget: Dir) returns (r: Nav, moved: Option<Dir>)
    ensures var s1 := if !OnMap(w.dims, Add(w.here, EdgeProbe(s))) then EdgeReset(s, w.here, target, toTarget) else s;
      && r.inBugMode == s.inBugMode && r.target == s.target && r.movement == s.movement
      && r.isGoingLeft == s1.isGoingLeft && r.distSqAtStart == s1.distSqAtStart
      && (moved.Some? ==> CanMoveIfImpatient(st, w, moved.value))
      && (moved.Some? ==> exists i :: 0 <= i < 8 && moved.value == ProbeDir(s1.dirAtStart, i, s1.isGoingLeft))
      && (moved.None? ==> forall i :: 0 <= i < 8 ==>
            !Allowed(st, w, ProbeDir(s1.dirAtStart, i, s1.isGoingLeft), CounterAt(i, s1.turnsSinceBlocked + 1)))
      && (moved.None? ==> r.lastMoveDir == s1.lastMoveDir && r.numTurns == s1.numTurns && r.dirAtStart == s1.dirAtStart)
      && (moved.None? ==> r.turnsSinceBlocked == 0)
      && (moved.Some? ==> (r.lastMoveDir == moved.value
            && r.numTurns == s1.numTurns + BugRotation(s1, moved.value)
            && r.dirAtStart == NextStart(moved.value, s1.isGoingLeft)))
      && r.turnsSinceBlocked == if Allowed(st, w, s1.dirAtStart, s1.turnsSinceBlocked + 1) then s1.turnsSinceBlocked + 1 else 0
  {
    var s1 := s;
    var onMapEdge := !OnMap(w.dims, Add(w.here, EdgeProbe(s)));
    if onMapEdge {
      s1 := EdgeReset(s, w.here, target, toTarget);
    }
    var dir, turnsSinceBlocked := Probe(st, w, s1.dirAtStart, s1.isGoingLeft, s1.turnsSinceBlocked + 1);
    r := s1.(turnsSinceBlocked := turnsSinceBlocked);
    moved := dir;
    if dir.Some? {
      var d := dir.value;
      r := r.(numTurns := s1.numTurns + BugRotation(s1, d), lastMoveDir := d, dirAtStart := NextStart(d, s1.isGoingLeft));
    } else {
      assert Allowed(st, w, s1.dirAtStart, s1.turnsSinceBlocked + 1) ==> !Allowed(st, w, ProbeDir(s1.dirAtStart, 0, s1.isGoingLeft), CounterAt(0, s1.turnsSinceBlocked + 1));
    }
  }

  /** What one call of pathfindToward does: the new state, the move made, locAfterMovement, the random stream, the result. */
  datatype Outcome = Outcome(nav: Nav, moved: Option<Dir>, locAfterMovement: Loc, rng: Rng, result: bool)

  /**
   * pathfindToward, for a state with a target and a strategy (setTarget has
   * run). The result is true exactly when a direct-mode move was made.
   */
  method PathfindToward(s: Nav, w: World, toTarget: Dir, locAfterMovement: Loc, rng: Rng) returns (o: Outcome)
    requires s.target.Some? && s.movement.Some?
    ensures var target := s.target.value;
      var st := s.movement.value.strategy;
      var distSq := DistSq(w.here, target);
      && (AtGoal(w, target) ==> o == Outcome(s, None, locAfterMovement, rng, false))
      && o.nav.target == s.target && o.nav.movement == s.movement
      && (o.moved.Some? ==> CanMoveIfImpatient(st, w, o.moved.value) && w.engineCanMove(o.moved.value))
      && o.locAfterMovement == (if o.moved.Some? then Move(st, w, o.moved.value, locAfterMovement) else locAfterMovement)
      && (o.result <==> !AtGoal(w, target) && !StaysInBugMode(s, distSq) && DirectChoice(st, w, target, toTarget).Some?)
      && (o.result ==> o.moved == DirectChoice(st, w, target, toTarget) && o.nav == s.(inBugMode := false) && o.rng == rng)
      && (!AtGoal(w, target) && !o.result ==> o.nav.inBugMode)
      && (StaysInBugMode(s, distSq) && !AtGoal(w, target) ==> o.rng == rng)
      && (!AtGoal(w, target) && !StaysInBugMode(s, distSq) && DirectChoice(st, w, target, toTarget).None? ==>
            o.rng == Rng(rng.bits, rng.pos + 1))
  {
    var target := s.target.value;
    var st := s.movement.value.strategy;
    if AtGoal(w, target) {
      return Outcome(s, None, locAfterMovement, rng, false);
    }
    var nav := s;
    if nav.inBugMode && LeavesBugMode(nav, DistSq(w.here, target)) {
      nav := nav.(inBugMode := false);
    }
    var rng' := rng;
    if !nav.inBugMode {
      var choice := DirectChoice(st, w, target, toTarget);
      if choice.Some? {
        return Outcome(nav, choice, Move(st, w, choice.value, locAfterMovement), rng, true);
      }
      var reset := ResetBugMode(nav.(inBugMode := true), w.here, target, toTarget, rng);
      nav, rng' := reset.0, reset.1;
    }
    var next, moved := BugStep(nav, st, w, target, toTarget);
    ImpatienceRelaxes(st, w, toTarget);
    if moved.Some? {
      ImpatienceRelaxes(st, w, moved.value);
      return Outcome(next, moved, Move(st, w, moved.value, locAfterMovement), rng', false);
    }
    return Outcome(next, moved, locAfterMovement, rng', false);
  }
}
