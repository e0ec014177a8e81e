/** The state `main()` keeps across frames (src/main.cpp:14-15, 33-66),
    gathered into one immutable record. */
module Session {
  import opened Geometry

  /** `GameScreen`: exactly one screen is active at a time. */
  datatype Screen = StartScreen | Gameplay | GameOver

  /** Everything the frame loop reads and writes. `platforms` is
      `all_platforms`, `rowCounts` is `num_platforms_arr`. */
  datatype Game = Game(
    player: Rect,
    velocityY: real,
    speed: real,
    jumpforce: real,
    gravity: real,
    platformSpeed: real,
    isOnGround: bool,
    gameStart: bool,
    survivalTime: real,
    platforms: seq<Rect>,
    rowCounts: seq<int>,
    screen: Screen)

  const InitialJumpforce: real := -600.0
  const PlayerSize: real := 50.0

  /** `gravity` is always derived from the current jump impulse. */
  function GravityFor(jumpforce: real): real
  {
    (jumpforce * jumpforce) / 800.0
  }

  /** The state before the first frame, given the generated platforms. */
  function Initial(platforms: seq<Rect>, rowCounts: seq<int>): (g: Game)
    ensures g.screen == StartScreen && g.isOnGround && !g.gameStart
    ensures g.player.y == GroundY && g.velocityY == 0.0 && g.survivalTime == 0.0
    ensures g.gravity == GravityFor(g.jumpforce) && g.gravity == 450.0
    ensures g.jumpforce == InitialJumpforce && g.speed == 400.0 && g.platformSpeed == 100.0
    ensures g.player.x == 100.0 && g.player.width == PlayerSize && g.player.height == PlayerSize
    ensures g.platforms == platforms && g.rowCounts == rowCounts
  {
    Game(
      player := Rect(100.0, GroundY, PlayerSize, PlayerSize),
      velocityY := 0.0,
      speed := 400.0,
      jumpforce := InitialJumpforce,
      gravity := GravityFor(InitialJumpforce),
      platformSpeed := 100.0,
      isOnGround := true,
      gameStart := false,
      survivalTime := 0.0,
      platforms := platforms,
      rowCounts := rowCounts,
      screen := StartScreen)
  }
}
