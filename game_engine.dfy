/**
 * The game component's state as one owned object that the frame loop, the
 * click handler, the collision poll and the restart button update in place.
 * Each method is proved against the matching transition of GameModel.
 */
module GameEngine {
  import opened GameModel

  class Game {
    var score: real
    var speed: real
    var gravity: int
    var obstacles: seq<Obstacle>
    var gameOver: bool
    /** The spawn accumulator, in milliseconds since the last spawn. */
    var obstacleTimer: real

    /** The abstract value of the object. */
    function View(): State
      reads this
    {
      State(score, speed, gravity, obstacles, gameOver, obstacleTimer)
    }

    constructor ()
      ensures View() == Initial() && Valid(View())
    {
      score := 0.0;
      speed := InitialSpeed;
      gravity := 1;
      obstacles := [];
      gameOver := false;
      obstacleTimer := 0.0;
      InitialIsValid();
    }

    /** One animation frame of dt milliseconds; isTop is the random bit for a spawn. */
    method Tick(dt: real, isTop: bool)
      modifies this
      ensures View() == Step(old(View()), dt, isTop)
      ensures Valid(old(View())) && dt >= 0.0 ==> Valid(View())
    {
      if Valid(View()) && dt >= 0.0 {
        StepPreservesValid(View(), dt, isTop);
      }
      if gameOver {
        return;
      }
      obstacles := MoveObstacles(obstacles, speed);
      obstacleTimer := obstacleTimer + dt;
      if obstacleTimer > ObstacleInterval {
        obstacleTimer := 0.0;
        obstacles := obstacles + SpawnPair(isTop);
      }
      speed := speed + dt * SpeedRamp;
      score := score + dt * ScoreRamp;
    }

    /** The click handler: gravity is negated (also after the game is over). */
    method FlipGravity()
      modifies this
      ensures View() == Flip(old(View()))
      ensures Valid(old(View())) ==> Valid(View())
    {
      gravity := -gravity;
    }

    /**
     * Scans the obstacles in order; on the first one that overlaps the
     * player box the game ends and the list is cleared.
     */
    method CheckCollision()
      modifies this
      ensures View() == Collide(old(View()))
      ensures Valid(old(View())) ==> Valid(View())
    {
      var box := PlayerBox(gravity);
      var i := 0;
      while i < |obstacles|
        invariant 0 <= i <= |obstacles|
        invariant View() == old(View())
        invariant forall j :: 0 <= j < i ==> !Overlaps(box, obstacles[j])
      {
        if Overlaps(box, obstacles[i]) {
          gameOver := true;
          obstacles := [];
          return;
        }
        i := i + 1;
      }
    }

    /** The restart button: every field back to its initial value. */
    method Restart()
      modifies this
      ensures View() == Initial() && Valid(View())
    {
      score := 0.0;
      gameOver := false;
      gravity := 1;
      obstacles := [];
      speed := InitialSpeed;
      obstacleTimer := 0.0;
      InitialIsValid();
    }
  }
}
