/** Jump, fall, horizontal movement and the loss condition of a gameplay
    frame (src/main.cpp:128-152). It runs after the landing test and sees
    that test's verdict in `isOnGround`. */
module Physics {
  import opened Geometry
  import opened Session

  /** Whether the jump fires this frame: space pressed while on the ground. */
  predicate Jumps(g: Game, spacePressed: bool)
  {
    spacePressed && g.isOnGround
  }

  /** The vertical part of the frame: an optional jump, then, while airborne,
      gravity and motion, then the loss check against the ground line. */
  function Vertical(g: Game, spacePressed: bool, dt: real): (r: Game)
  {
    var g1 := if Jumps(g, spacePressed)
      then g.(velocityY := g.jumpforce, isOnGround := false, gameStart := true)
      else g;
    if g1.isOnGround then g1
    else
      var velocityY := g1.velocityY + g1.gravity * dt;
      var g2 := g1.(velocityY := velocityY, player := g1.player.(y := g1.player.y + velocityY * dt));
      if g2.player.y >= GroundY then g2.(screen := GameOver, gameStart := false, survivalTime := 0.0)
      else g2
  }

  /** The horizontal part: right then left, each by `speed * dt`, with no
      clamping to the screen. */
  function Horizontal(g: Game, rightDown: bool, leftDown: bool, dt: real): (r: Game)
  {
    var g1 := if rightDown then g.(player := g.player.(x := g.player.x + g.speed * dt)) else g;
    if leftDown then g1.(player := g1.player.(x := g1.player.x - g1.speed * dt)) else g1
  }

  /** The physics of one gameplay frame. The jump fires only from the ground,
      sets the velocity to the jump impulse, leaves the ground and starts the
      scroll. Airborne, the velocity gains `gravity * dt` and y gains the new
      velocity times `dt`; reaching the ground line ends the game. On the
      ground, nothing vertical changes. x always moves by the keys held. */
  function Step(g: Game, spacePressed: bool, rightDown: bool, leftDown: bool, dt: real): (r: Game)
    ensures r.platforms == g.platforms && r.rowCounts == g.rowCounts
    ensures r.speed == g.speed && r.jumpforce == g.jumpforce && r.gravity == g.gravity
    ensures r.platformSpeed == g.platformSpeed
    ensures r.player.width == g.player.width && r.player.height == g.player.height
    ensures r.player.x == g.player.x + (if rightDown then g.speed * dt else 0.0) - (if leftDown then g.speed * dt else 0.0)
    ensures !Jumps(g, spacePressed) && g.isOnGround ==>
      r.isOnGround && r.player.y == g.player.y && r.velocityY == g.velocityY &&
      r.gameStart == g.gameStart && r.survivalTime == g.survivalTime && r.screen == g.screen
    ensures Jumps(g, spacePressed) || !g.isOnGround ==>
      !r.isOnGround &&
      r.velocityY == (if Jumps(g, spacePressed) then g.jumpforce else g.velocityY) + g.gravity * dt &&
      r.player.y == g.player.y + r.velocityY * dt
    ensures (Jumps(g, spacePressed) || !g.isOnGround) && r.player.y >= GroundY ==>
      r.screen == GameOver && !r.gameStart && r.survivalTime == 0.0
    ensures (Jumps(g, spacePressed) || !g.isOnGround) && r.player.y < GroundY ==>
      r.screen == g.screen && r.survivalTime == g.survivalTime &&
      r.gameStart == (g.gameStart || Jumps(g, spacePressed))
  {
    Horizontal(Vertical(g, spacePressed, dt), rightDown, leftDown, dt)
  }

  /** From rest on the ground line, pressing space jumps with the current
      impulse; gravity already acts within the same frame, so the velocity
      after the frame is the impulse plus `gravity * dt`. With the initial
      constants (impulse -600, gravity 450) and a frame shorter than 4/3 s
      the player rises and play continues. */
  lemma JumpFromGround(g: Game, dt: real)
    requires g.isOnGround && g.player.y == GroundY && g.velocityY == 0.0 && g.screen == Gameplay
    requires g.jumpforce == InitialJumpforce && g.gravity == GravityFor(InitialJumpforce)
    requires 0.0 < dt < 4.0 / 3.0
    ensures var r := Step(g, true, false, false, dt);
      r.velocityY == -600.0 + 450.0 * dt && r.velocityY < 0.0 &&
      r.player.y < GroundY && !r.isOnGround && r.gameStart && r.screen == Gameplay
  {
    var r := Step(g, true, false, false, dt);
    assert r.velocityY < 0.0;
    assert r.velocityY * dt < 0.0;
  }
}
