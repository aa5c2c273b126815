/**
 * The game state of the endless runner in mini-app/components/game.tsx, as
 * values: the player box, obstacle geometry, the move-and-filter obstacle
 * step, the spawn rule, and the four state transitions (Tick, gravity flip,
 * collision check, restart) as functions on a State. The class in
 * GameEngine is proved against these functions.
 *
 * Positions, speeds, scores and elapsed times are exact reals; the canvas
 * is fixed at 800 x 400.
 */
module GameModel {

  // Canvas and sprite dimensions.
  const CanvasWidth: real := 800.0
  const CanvasHeight: real := 400.0
  /** Gap between a band and the canvas edge it hugs. */
  const Margin: real := 10.0
  const CubeSize: real := 30.0
  const ObstacleSize: real := 20.0
  /** The two obstacle bands: y = 10 (top) and y = 370 (bottom). */
  const TopBandY: real := Margin
  const BottomBandY: real := CanvasHeight - Margin - ObstacleSize
  /** The player never moves horizontally: x = canvas width / 4 = 200. */
  const PlayerX: real := CanvasWidth / 4.0

  // Timing and difficulty.
  const ObstacleInterval: real := 600.0
  const SpeedRamp: real := 0.00005
  const ScoreRamp: real := 0.01
  const InitialSpeed: real := 0.25

  /** An axis-aligned rectangle; (x, y) is its top-left corner. */
  datatype Rect = Rect(x: real, y: real, width: real, height: real)

  type Obstacle = Rect

  /**
   * Everything the game loop reads and writes. gravity is 1 when the player
   * rests on the floor and -1 when on the ceiling; obstacleTimer is the
   * spawn accumulator.
   */
  datatype State = State(
    score: real,
    speed: real,
    gravity: int,
    obstacles: seq<Obstacle>,
    gameOver: bool,
    obstacleTimer: real)

  // ---------------------------------------------------------------------
  // Player box and overlap geometry
  // ---------------------------------------------------------------------

  /** Top edge of the player: 10 above the floor when gravity is 1, else 10 below the ceiling. */
  function CubeY(gravity: int): (y: real)
    ensures gravity == 1 ==> y + CubeSize + Margin == CanvasHeight
    ensures gravity != 1 ==> y == Margin
  {
    if gravity == 1 then CanvasHeight - CubeSize - Margin else Margin
  }

  /** The player's bounding box: a 30 x 30 square at x = 200 lying inside the canvas. */
  function PlayerBox(gravity: int): (r: Rect)
    ensures r.x == PlayerX && r.width == CubeSize && r.height == CubeSize
    ensures r.y == CubeY(gravity)
    ensures 0.0 < r.y && r.y + r.height < CanvasHeight
  {
    Rect(PlayerX, CubeY(gravity), CubeSize, CubeSize)
  }

  /** The open intervals (lo1, lo1 + len1) and (lo2, lo2 + len2) meet. */
  predicate SpanOverlap(lo1: real, len1: real, lo2: real, len2: real)
  {
    lo1 < lo2 + len2 && lo1 + len1 > lo2
  }

  /** Strict AABB overlap: all four half-plane tests hold. */
  predicate Overlaps(a: Rect, b: Rect)
  {
    SpanOverlap(a.x, a.width, b.x, b.width) && SpanOverlap(a.y, a.height, b.y, b.height)
  }

  /** (px, py) lies strictly inside r. */
  predicate Contains(r: Rect, px: real, py: real)
  {
    r.x < px < r.x + r.width && r.y < py < r.y + r.height
  }

  function Min(a: real, b: real): real { if a <= b then a else b }

  function Max(a: real, b: real): real { if a <= b then b else a }

  /** For rectangles of positive size, the overlap test means that they share an interior point. */
  lemma OverlapsIffCommonInteriorPoint(a: Rect, b: Rect)
    requires a.width > 0.0 && a.height > 0.0 && b.width > 0.0 && b.height > 0.0
    ensures Overlaps(a, b) <==> exists px, py :: Contains(a, px, py) && Contains(b, px, py)
  {
    if Overlaps(a, b) {
      var px := (Max(a.x, b.x) + Min(a.x + a.width, b.x + b.width)) / 2.0;
      var py := (Max(a.y, b.y) + Min(a.y + a.height, b.y + b.height)) / 2.0;
      assert Contains(a, px, py) && Contains(b, px, py);
    }
  }

  /** Rectangles that only touch along an edge do not overlap. */
  lemma TouchingIsNotOverlap(a: Rect, b: Rect)
    ensures b.x == a.x + a.width || a.x == b.x + b.width ==> !Overlaps(a, b)
    ensures b.y == a.y + a.height || a.y == b.y + b.height ==> !Overlaps(a, b)
  {
  }

  /**
   * On the floor (gravity 1) the player shares rows with the bottom band and
   * not the top one; anywhere else it is the other way round.
   */
  lemma PlayerBands(gravity: int)
    ensures var box := PlayerBox(gravity);
      gravity == 1 <==> SpanOverlap(box.y, box.height, BottomBandY, ObstacleSize)
    ensures var box := PlayerBox(gravity);
      gravity != 1 <==> SpanOverlap(box.y, box.height, TopBandY, ObstacleSize)
  {
  }

  /**
   * A bottom-band obstacle at x = 100 (right edge 120) misses the floor
   * player at x = 200..230; one at x = 210 hits it.
   */
  lemma CollisionScenario()
    ensures !Overlaps(PlayerBox(1), Rect(100.0, BottomBandY, ObstacleSize, ObstacleSize))
    ensures Overlaps(PlayerBox(1), Rect(210.0, BottomBandY, ObstacleSize, ObstacleSize))
  {
  }

  /** Some obstacle of obs overlaps box. */
  predicate AnyOverlap(box: Rect, obs: seq<Obstacle>)
  {
    exists o :: o in obs && Overlaps(box, o)
  }

  /** The score shown on the canvas and the game-over screen is the integer part of score. */
  function DisplayedScore(score: real): (n: int)
    ensures n as real <= score < n as real + 1.0
  {
    score.Floor
  }

  // ---------------------------------------------------------------------
  // Obstacle step: move left, then drop what has left the screen
  // ---------------------------------------------------------------------

  function Shift(o: Obstacle, speed: real): Obstacle
  {
    o.(x := o.x - speed)
  }

  /** Some part of o is still right of x = 0. */
  predicate Visible(o: Obstacle)
  {
    o.x + o.width > 0.0
  }

  function ShiftAll(obs: seq<Obstacle>, speed: real): seq<Obstacle>
  {
    seq(|obs|, i requires 0 <= i < |obs| => Shift(obs[i], speed))
  }

  /** The obstacles of obs that are still visible, in their original order. */
  function KeepVisible(obs: seq<Obstacle>): (r: seq<Obstacle>)
    ensures |r| <= |obs|
    ensures forall o :: o in r <==> o in obs && Visible(o)
  {
    if |obs| == 0 then []
    else (if Visible(obs[0]) then [obs[0]] else []) + KeepVisible(obs[1..])
  }

  /** Filtering distributes over concatenation, so relative order is kept. */
  lemma {:induction false} KeepVisibleAppend(a: seq<Obstacle>, b: seq<Obstacle>)
    ensures KeepVisible(a + b) == KeepVisible(a) + KeepVisible(b)
  {
    if |a| == 0 {
      assert a + b == b;
    } else {
      assert (a + b)[0] == a[0];
      assert (a + b)[1..] == a[1..] + b;
      KeepVisibleAppend(a[1..], b);
    }
  }

  /** One frame of obstacle motion: shift every obstacle left by speed, keep the visible ones. */
  function MoveObstacles(obs: seq<Obstacle>, speed: real): seq<Obstacle>
  {
    KeepVisible(ShiftAll(obs, speed))
  }

  /**
   * The moved list holds exactly the shifted obstacles that are still
   * visible: each kept one is an old one moved left by speed with y, width
   * and height unchanged, and none lies wholly left of x = 0.
   */
  lemma MoveObstaclesMembers(obs: seq<Obstacle>, speed: real)
    ensures forall p :: p in obs ==> (Shift(p, speed) in MoveObstacles(obs, speed) <==> Visible(Shift(p, speed)))
    ensures forall o :: o in MoveObstacles(obs, speed) ==>
      Visible(o) && exists p :: p in obs && o == Shift(p, speed)
  {
    var shifted := ShiftAll(obs, speed);
    forall p | p in obs
      ensures Shift(p, speed) in shifted
    {
      var i :| 0 <= i < |obs| && obs[i] == p;
      assert shifted[i] == Shift(p, speed);
    }
    forall o | o in shifted
      ensures exists p :: p in obs && o == Shift(p, speed)
    {
      var i :| 0 <= i < |shifted| && shifted[i] == o;
      assert obs[i] in obs;
    }
  }

  /**
   * Moving is applied obstacle by obstacle and keeps relative order: the
   * moved list of a + b is the moved list of a followed by that of b, and a
   * single obstacle survives exactly when its shifted copy is visible.
   */
  lemma MoveObstaclesOrder(a: seq<Obstacle>, b: seq<Obstacle>, speed: real)
    ensures MoveObstacles(a + b, speed) == MoveObstacles(a, speed) + MoveObstacles(b, speed)
    ensures forall o :: MoveObstacles([o], speed) ==
                        if Visible(Shift(o, speed)) then [Shift(o, speed)] else []
  {
    assert ShiftAll(a + b, speed) == ShiftAll(a, speed) + ShiftAll(b, speed);
    KeepVisibleAppend(ShiftAll(a, speed), ShiftAll(b, speed));
    forall o
      ensures MoveObstacles([o], speed) == if Visible(Shift(o, speed)) then [Shift(o, speed)] else []
    {
      assert ShiftAll([o], speed) == [Shift(o, speed)];
    }
  }

  /** o after one frame at each of the given speeds, in order. */
  function Travel(o: Obstacle, speeds: seq<real>): Obstacle
    decreases |speeds|
  {
    if |speeds| == 0 then o else Travel(Shift(o, speeds[0]), speeds[1..])
  }

  /**
   * Frame by frame, an obstacle moves left by at least the initial speed
   * and keeps its y, width and height.
   */
  lemma {:induction false} TravelBound(o: Obstacle, speeds: seq<real>)
    requires forall i :: 0 <= i < |speeds| ==> speeds[i] >= InitialSpeed
    ensures Travel(o, speeds).x <= o.x - InitialSpeed * |speeds| as real
    ensures Travel(o, speeds) == o.(x := Travel(o, speeds).x)
    decreases |speeds|
  {
    if |speeds| > 0 {
      TravelBound(Shift(o, speeds[0]), speeds[1..]);
    }
  }

  /**
   * No obstacle stays on screen for ever: one spawned at the right edge
   * (x at most 800, width 20) is no longer visible after 3280 frames at
   * speeds of at least 0.25, since 800 - 3280 * 0.25 = -20.
   */
  lemma ObstacleLifetime(o: Obstacle, speeds: seq<real>)
    requires o.x <= CanvasWidth && o.width == ObstacleSize
    requires forall i :: 0 <= i < |speeds| ==> speeds[i] >= InitialSpeed
    requires |speeds| >= 3280
    ensures !Visible(Travel(o, speeds))
  {
    TravelBound(o, speeds);
  }

  // ---------------------------------------------------------------------
  // Spawning and the pair structure of the obstacle list
  // ---------------------------------------------------------------------

  /**
   * The pair added when the spawn timer fires: two 20 x 20 obstacles at the
   * right edge, one in each band; isTop (the random bit) picks which band
   * comes first.
   */
  function SpawnPair(isTop: bool): (pair: seq<Obstacle>)
    ensures |pair| == 2
    ensures forall o :: o in pair ==>
      o.x == CanvasWidth && o.width == ObstacleSize && o.height == ObstacleSize
    ensures {pair[0].y, pair[1].y} == {TopBandY, BottomBandY}
    ensures isTop <==> pair[0].y == TopBandY
  {
    [Rect(CanvasWidth, if isTop then TopBandY else BottomBandY, ObstacleSize, ObstacleSize),
     Rect(CanvasWidth, if isTop then BottomBandY else TopBandY, ObstacleSize, ObstacleSize)]
  }

  /** o has the spawned size, sits in one of the two bands, and is not right of the canvas edge. */
  predicate InBand(o: Obstacle)
  {
    o.width == ObstacleSize && o.height == ObstacleSize &&
    (o.y == TopBandY || o.y == BottomBandY) && o.x <= CanvasWidth
  }

  /** a and b fill both bands at the same x. */
  predicate IsPair(a: Obstacle, b: Obstacle)
  {
    InBand(a) && InBand(b) && a.x == b.x && a.y != b.y
  }

  /** obs is a sequence of consecutive pairs, as every spawn produces. */
  predicate Paired(obs: seq<Obstacle>)
    decreases |obs|
  {
    |obs| == 0 || (|obs| >= 2 && IsPair(obs[0], obs[1]) && Paired(obs[2..]))
  }

  lemma SpawnPairIsPair(isTop: bool)
    ensures Paired(SpawnPair(isTop))
  {
  }

  lemma {:induction false} PairedAppend(a: seq<Obstacle>, b: seq<Obstacle>)
    requires Paired(a) && Paired(b)
    ensures Paired(a + b)
  {
    if |a| == 0 {
      assert a + b == b;
    } else {
      PairedAppend(a[2..], b);
      assert (a + b)[2..] == a[2..] + b;
    }
  }

  /** Moving left by a non-negative speed keeps the pairs. */
  lemma {:induction false} ShiftAllPaired(obs: seq<Obstacle>, speed: real)
    requires Paired(obs) && speed >= 0.0
    ensures Paired(ShiftAll(obs, speed))
  {
    if |obs| > 0 {
      ShiftAllPaired(obs[2..], speed);
      assert ShiftAll(obs, speed)[2..] == ShiftAll(obs[2..], speed);
    }
  }

  /** The two halves of a pair leave the screen together, so filtering keeps the pairs. */
  lemma {:induction false} KeepVisiblePaired(obs: seq<Obstacle>)
    requires Paired(obs)
    ensures Paired(KeepVisible(obs))
  {
    if |obs| > 0 {
      var a, b, rest := obs[0], obs[1], obs[2..];
      KeepVisiblePaired(rest);
      assert obs[1..][0] == b && obs[1..][1..] == rest;
      var kept := KeepVisible(rest);
      assert KeepVisible(obs[1..]) == (if Visible(b) then [b] else []) + kept;
      if Visible(a) {
        assert KeepVisible(obs) == [a, b] + kept;
        assert ([a, b] + kept)[2..] == kept;
      } else {
        assert KeepVisible(obs) == kept;
      }
    }
  }

  /** An obstacle shares columns with the player. */
  predicate InPlayerColumn(o: Obstacle)
  {
    SpanOverlap(PlayerX, CubeSize, o.x, o.width)
  }

  /**
   * Over a paired list, the player (on floor or ceiling) is hit exactly
   * when some obstacle is in its column: the other half of that obstacle's
   * pair always fills the player's band.
   */
  lemma {:induction false} PairedHitIsColumnHit(obs: seq<Obstacle>, gravity: int)
    requires Paired(obs)
    requires gravity == 1 || gravity == -1
    ensures AnyOverlap(PlayerBox(gravity), obs) <==> exists o :: o in obs && InPlayerColumn(o)
  {
    var box := PlayerBox(gravity);
    if |obs| > 0 {
      var rest := obs[2..];
      PairedHitIsColumnHit(rest, gravity);
      assert forall o :: o in obs <==> o == obs[0] || o == obs[1] || o in rest;
      if InPlayerColumn(obs[0]) || InPlayerColumn(obs[1]) {
        assert Overlaps(box, obs[0]) || Overlaps(box, obs[1]);
      }
    }
  }

  /**
   * Consequence: over a paired list, whether the player is hit does not
   * depend on gravity, so flipping never dodges an obstacle.
   */
  lemma CollisionIgnoresGravity(obs: seq<Obstacle>)
    requires Paired(obs)
    ensures AnyOverlap(PlayerBox(1), obs) <==> AnyOverlap(PlayerBox(-1), obs)
  {
    PairedHitIsColumnHit(obs, 1);
    PairedHitIsColumnHit(obs, -1);
  }

  // ---------------------------------------------------------------------
  // State transitions
  // ---------------------------------------------------------------------

  /** The state at mount and after a restart. */
  function Initial(): State
  {
    State(0.0, InitialSpeed, 1, [], false, 0.0)
  }

  /**
   * The invariant every reachable state keeps (with non-negative frame
   * times). A finished game holds no obstacles, since the hit that ends it
   * clears them.
   */
  predicate Valid(s: State)
  {
    (s.gravity == 1 || s.gravity == -1) &&
    s.speed >= InitialSpeed && s.score >= 0.0 &&
    0.0 <= s.obstacleTimer <= ObstacleInterval &&
    Paired(s.obstacles) &&
    (forall o :: o in s.obstacles ==> Visible(o)) &&
    (s.gameOver ==> s.obstacles == [])
  }

  /** The state after one animation frame that took dt milliseconds; isTop is the random bit. */
  function Step(s: State, dt: real, isTop: bool): State
  {
    if s.gameOver then s
    else
      var moved := MoveObstacles(s.obstacles, s.speed);
      var timer := s.obstacleTimer + dt;
      var spawn := timer > ObstacleInterval;
      State(
        score := s.score + dt * ScoreRamp,
        speed := s.speed + dt * SpeedRamp,
        gravity := s.gravity,
        obstacles := if spawn then moved + SpawnPair(isTop) else moved,
        gameOver := false,
        obstacleTimer := if spawn then 0.0 else timer)
  }

  /** The click handler's update. */
  function Flip(s: State): State
  {
    s.(gravity := -s.gravity)
  }

  /** The collision poll: the first hit ends the game and clears the obstacles. */
  function Collide(s: State): State
  {
    if AnyOverlap(PlayerBox(s.gravity), s.obstacles) then s.(gameOver := true, obstacles := [])
    else s
  }

  lemma InitialIsValid()
    ensures Valid(Initial())
    ensures Initial().score == 0.0 && Initial().speed == 0.25 && Initial().gravity == 1
    ensures Initial().obstacles == [] && !Initial().gameOver
  {
  }

  /** Once the game is over, a frame changes nothing: no motion, no spawn, no ramp. */
  lemma StepInertWhenOver(s: State, dt: real, isTop: bool)
    requires s.gameOver
    ensures Step(s, dt, isTop) == s
  {
  }

  /**
   * The spawn rule for a running game: a pair is appended after the moved
   * obstacles exactly when the accumulated time strictly exceeds 600 ms,
   * and then the timer restarts at 0; otherwise the timer just grows by dt.
   */
  lemma StepSpawnRule(s: State, dt: real, isTop: bool)
    requires !s.gameOver
    ensures var r := Step(s, dt, isTop); var moved := MoveObstacles(s.obstacles, s.speed);
      && r.obstacles[..|moved|] == moved
      && (|r.obstacles| == |moved| + 2 <==> s.obstacleTimer + dt > ObstacleInterval)
      && (s.obstacleTimer + dt > ObstacleInterval ==>
            r.obstacles[|moved|..] == SpawnPair(isTop) && r.obstacleTimer == 0.0)
      && (s.obstacleTimer + dt <= ObstacleInterval ==>
            r.obstacles == moved && r.obstacleTimer == s.obstacleTimer + dt)
  {
  }

  /**
   * speed and score grow linearly in dt while the game runs; for a
   * non-negative dt neither ever decreases, and gravity and the game-over
   * flag are untouched.
   */
  lemma StepRamps(s: State, dt: real, isTop: bool)
    requires !s.gameOver
    ensures var r := Step(s, dt, isTop);
      && r.speed == s.speed + dt * 0.00005
      && r.score == s.score + dt * 0.01
      && r.gravity == s.gravity && !r.gameOver
      && (dt >= 0.0 ==> r.speed >= s.speed && r.score >= s.score)
  {
  }

  /** From a fresh start, a 600 ms frame reaches but does not exceed the interval: no spawn. */
  lemma StepFromInitial(isTop: bool)
    ensures Step(Initial(), 600.0, isTop) == State(6.0, 0.28, 1, [], false, 600.0)
    ensures |Step(Initial(), 600.001, isTop).obstacles| == 2
  {
  }

  /** Every step with a non-negative frame time keeps the invariant. */
  lemma StepPreservesValid(s: State, dt: real, isTop: bool)
    requires Valid(s) && dt >= 0.0
    ensures Valid(Step(s, dt, isTop))
  {
    if !s.gameOver {
      var shifted := ShiftAll(s.obstacles, s.speed);
      ShiftAllPaired(s.obstacles, s.speed);
      KeepVisiblePaired(shifted);
      var moved := MoveObstacles(s.obstacles, s.speed);
      if s.obstacleTimer + dt > ObstacleInterval {
        SpawnPairIsPair(isTop);
        PairedAppend(moved, SpawnPair(isTop));
      }
    }
  }

  /**
   * In a running reachable game, every obstacle after a frame is either an
   * old one moved left by the current speed, hence by at least 0.25, or a
   * fresh spawn at the right edge, which only happens when the timer fires.
   */
  lemma StepMovesObstacles(s: State, dt: real, isTop: bool)
    requires Valid(s) && !s.gameOver
    ensures forall o :: o in Step(s, dt, isTop).obstacles ==>
      (exists p :: p in s.obstacles && o == Shift(p, s.speed) && o.x <= p.x - InitialSpeed) ||
      (o in SpawnPair(isTop) && s.obstacleTimer + dt > ObstacleInterval)
  {
    MoveObstaclesMembers(s.obstacles, s.speed);
  }

  /** Flipping negates gravity, keeps it in {1, -1}, and undoes itself. */
  lemma FlipInvolution(s: State)
    ensures Flip(s).gravity == -s.gravity
    ensures Flip(Flip(s)) == s
    ensures Valid(s) ==> Valid(Flip(s))
  {
  }

  /**
   * A hit ends the game and empties the list; no hit leaves the state
   * unchanged; a second check after a hit changes nothing.
   */
  lemma CollideOutcome(s: State)
    ensures AnyOverlap(PlayerBox(s.gravity), s.obstacles) ==>
      Collide(s).gameOver && Collide(s).obstacles == []
    ensures !AnyOverlap(PlayerBox(s.gravity), s.obstacles) ==> Collide(s) == s
    ensures Collide(Collide(s)) == Collide(s)
    ensures Valid(s) ==> Valid(Collide(s))
  {
  }

  /**
   * A reachable finished game is frozen: neither a frame nor a collision
   * check changes it, and a flip changes only gravity. Only a restart
   * leaves it.
   */
  lemma OverIsFrozen(s: State, dt: real, isTop: bool)
    requires Valid(s) && s.gameOver
    ensures Step(s, dt, isTop) == s
    ensures Collide(s) == s
    ensures Flip(s) == s.(gravity := -s.gravity) && Valid(Flip(s)) && Flip(s).gameOver
  {
    assert !AnyOverlap(PlayerBox(s.gravity), s.obstacles);
  }

  /**
   * In any reachable state, checking for a collision before or after a
   * flip gives the same outcome: the flip never saves the player.
   */
  lemma CollideCommutesWithFlip(s: State)
    requires Valid(s)
    ensures Collide(Flip(s)) == Flip(Collide(s))
  {
    CollisionIgnoresGravity(s.obstacles);
  }

  /**
   * The two-state machine: a frame and a flip never change gameOver, a
   * collision check can only set it, and only a restart clears it.
   */
  lemma GameOverTransitions(s: State, dt: real, isTop: bool)
    ensures Step(s, dt, isTop).gameOver == s.gameOver
    ensures Flip(s).gameOver == s.gameOver
    ensures s.gameOver ==> Collide(s).gameOver
    ensures !Initial().gameOver
  {
  }
}
