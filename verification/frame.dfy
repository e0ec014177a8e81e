/** One iteration of the frame loop (src/main.cpp:67-186) without drawing:
    the three-screen machine, and within GAMEPLAY the scroll step, the
    landing scan and the physics, in that order. Frame time, key states and
    random draws are the frame's inputs. */
module Frame {
  import opened Geometry
  import opened Session
  import Layout
  import Scroller
  import Collision
  import Physics

  /** What one frame reads from its environment: `GetFrameTime()`,
      `IsKeyPressed(KEY_SPACE)`, `IsKeyDown(KEY_RIGHT)`, `IsKeyDown(KEY_LEFT)`
      and the draws a recycled platform would consume. */
  datatype Input = Input(dt: real, spacePressed: bool, rightDown: bool, leftDown: bool, redraws: seq<Scroller.Redraw>)

  /** Inputs the environment can produce for a field of `n` platforms. */
  predicate ValidInput(input: Input, n: int)
  {
    input.dt >= 0.0 && Scroller.ValidRedraws(input.redraws, n)
  }

  /** The GAMEPLAY branch: scroll (if started), landing scan, physics. */
  function Play(g: Game, input: Input): (r: Game)
    requires |input.redraws| == |g.platforms|
    ensures |r.platforms| == |g.platforms| && r.rowCounts == g.rowCounts
  {
    var scrolled := Scroller.Scroll(g, input.dt, input.redraws);
    var resolved := Collision.Resolve(scrolled, input.dt);
    Physics.Step(resolved, input.spacePressed, input.rightDown, input.leftDown, input.dt)
  }

  /** One frame. START and GAME_OVER wait for space; GAMEPLAY simulates. */
  function Step(g: Game, input: Input): (r: Game)
    requires |input.redraws| == |g.platforms|
    ensures |r.platforms| == |g.platforms| && r.rowCounts == g.rowCounts
    ensures g.screen == StartScreen && input.spacePressed ==> r == g.(screen := Gameplay)
    ensures g.screen != Gameplay && !input.spacePressed ==> r == g
    ensures g.screen == GameOver && input.spacePressed ==>
      r.screen == Gameplay && r.isOnGround && r.player.y == GroundY && r.velocityY == 0.0 &&
      r == g.(screen := Gameplay, isOnGround := true, velocityY := 0.0, player := g.player.(y := GroundY))
  {
    match g.screen
    case StartScreen =>
      if input.spacePressed then g.(screen := Gameplay) else g
    case Gameplay =>
      Play(g, input)
    case GameOver =>
      if input.spacePressed then
        g.(screen := Gameplay, isOnGround := true, player := g.player.(y := GroundY), velocityY := 0.0)
      else g
  }

  /** A platform as the game keeps it: height 20, width in [100,150], in
      one of the six slots, and vertically between the recycle line and the
      screen bottom. */
  predicate PlatformOk(p: Rect)
  {
    p.height == PlatformHeight as real &&
    MinWidth as real <= p.width <= MaxWidth as real &&
    p.x in SlotXs &&
    RecycleY <= p.y <= ScreenBottom
  }

  /** What holds of every state the game reaches. */
  predicate Inv(g: Game)
  {
    Layout.ValidCounts(g.rowCounts) && |g.platforms| == Layout.Total(g.rowCounts) &&
    (forall k :: 0 <= k < |g.platforms| ==> PlatformOk(g.platforms[k])) &&
    g.player.width == PlayerSize && g.player.height == PlayerSize &&
    g.gravity == GravityFor(g.jumpforce) && g.jumpforce <= InitialJumpforce &&
    g.platformSpeed >= 100.0 && g.speed >= 400.0 &&
    g.survivalTime >= 0.0 && (!g.gameStart ==> g.survivalTime == 0.0) &&
    (g.screen != Gameplay ==> !g.gameStart) &&
    (g.screen == GameOver ==> g.player.y >= GroundY)
  }

  /** The state built from any generated field satisfies the invariant. */
  lemma InitialInv(counts: seq<int>, slots: seq<seq<int>>, widths: seq<seq<int>>)
    requires Layout.ValidDraws(counts, slots, widths)
    ensures Inv(Initial(Layout.Field(counts, slots, widths), counts))
  {
    var ps := Layout.Field(counts, slots, widths);
    forall k | 0 <= k < |ps|
      ensures PlatformOk(ps[k])
    {
      var i := Layout.RowOf(counts, k);
      var j := k - Layout.RowStart(counts, i);
      Layout.RowGeometry(counts, slots, widths, i, j);
    }
  }

  /** The scroll step keeps every platform well formed: a platform either
      moves down by a non-negative amount and stays on screen, or is recycled
      into a slot with a fresh width. */
  lemma ScrollKeepsPlatforms(g: Game, input: Input)
    requires Inv(g) && ValidInput(input, |g.platforms|)
    ensures var r := Scroller.Scroll(g, input.dt, input.redraws);
      forall k :: 0 <= k < |r.platforms| ==> PlatformOk(r.platforms[k])
  {
    if g.gameStart {
      assert g.platformSpeed * input.dt >= 0.0;
      forall k | 0 <= k < |g.platforms|
        ensures PlatformOk(Scroller.Scroll(g, input.dt, input.redraws).platforms[k])
      {
        Scroller.ScrollPlatforms(g, input.dt, input.redraws, k);
      }
    }
  }

  /** Every frame, on every screen and for every input, keeps the invariant. */
  lemma StepPreservesInv(g: Game, input: Input)
    requires Inv(g) && ValidInput(input, |g.platforms|)
    ensures Inv(Step(g, input))
  {
    if g.screen == Gameplay {
      ScrollKeepsPlatforms(g, input);
    }
  }

  /** Difficulty never goes back: in no frame, not even on a retry, does the
      scroll speed or the move speed fall or the jump impulse weaken. */
  lemma StepRampMonotone(g: Game, input: Input)
    requires Inv(g) && ValidInput(input, |g.platforms|)
    ensures var r := Step(g, input);
      r.platformSpeed >= g.platformSpeed && r.speed >= g.speed && r.jumpforce <= g.jumpforce &&
      r.gravity >= g.gravity
  {
    if g.screen == Gameplay {
      var scrolled := Scroller.Scroll(g, input.dt, input.redraws);
      var resolved := Collision.Resolve(scrolled, input.dt);
      assert Step(g, input) == Physics.Step(resolved, input.spacePressed, input.rightDown, input.leftDown, input.dt);
      if g.gameStart {
        Scroller.ScrollRamp(g, input.dt, input.redraws);
        var j := g.jumpforce;
        assert (j - 0.7) * (j - 0.7) == j * j - 1.4 * j + 0.49;
        assert GravityFor(j - 0.7) >= GravityFor(j);
      }
    }
  }

  /** A losing gameplay frame: if the player is airborne after the landing
      scan (or jumps) and ends the frame at or below the ground line, the
      game is over, the scroll stops and the survival time is reset. */
  lemma LossEndsGame(g: Game, input: Input)
    requires g.screen == Gameplay && |input.redraws| == |g.platforms|
    requires var resolved := Collision.Resolve(Scroller.Scroll(g, input.dt, input.redraws), input.dt);
      !resolved.isOnGround || (input.spacePressed && resolved.isOnGround)
    requires Step(g, input).player.y >= GroundY
    ensures var r := Step(g, input);
      r.screen == GameOver && !r.gameStart && r.survivalTime == 0.0
  {
  }

  /** A player standing on a platform at the scroll speed keeps landing on
      it in the next frame, as long as the platform is not recycled and the
      player still overlaps it: the scan's swept test meets its top edge
      exactly. This is why the landing sets the velocity to the scroll
      speed. The scan then keeps the player on the ground at the scroll
      speed, and snaps onto platform k unless an earlier platform in scan
      order also lands. */
  lemma RidingPlatform(g: Game, input: Input, k: nat)
    requires g.gameStart && ValidInput(input, |g.platforms|) && k < |g.platforms|
    requires g.platformSpeed >= 0.0 && g.velocityY == g.platformSpeed
    requires g.player.y + g.player.height == g.platforms[k].y
    requires !Scroller.Recycled(g.platforms[k], g.platformSpeed, input.dt)
    requires Collision.Overlap(g.player, Scroller.Scroll(g, input.dt, input.redraws).platforms[k])
    ensures var s := Scroller.Scroll(g, input.dt, input.redraws);
      Collision.Lands(s.player, s.platforms[k], s.velocityY, input.dt)
    ensures var s := Scroller.Scroll(g, input.dt, input.redraws);
      var r := Collision.Resolve(s, input.dt);
      r.isOnGround && r.velocityY == s.platformSpeed
    ensures var s := Scroller.Scroll(g, input.dt, input.redraws);
      (forall m :: 0 <= m < k ==> !Collision.Lands(s.player, s.platforms[m], s.velocityY, input.dt)) ==>
        Collision.Resolve(s, input.dt).player.y == s.platforms[k].y - s.player.height
  {
    var s := Scroller.Scroll(g, input.dt, input.redraws);
    Scroller.ScrollPlatforms(g, input.dt, input.redraws, k);
    assert g.platformSpeed * input.dt >= 0.0;
    assert Collision.Lands(s.player, s.platforms[k], s.velocityY, input.dt);
  }

  /** A run of frames, all inputs for a field of a fixed size. */
  function Run(g: Game, inputs: seq<Input>): (r: Game)
    requires forall t :: 0 <= t < |inputs| ==> ValidInput(inputs[t], |g.platforms|)
    ensures |r.platforms| == |g.platforms|
    decreases |inputs|
  {
    if |inputs| == 0 then g
    else
      assert ValidInput(inputs[0], |g.platforms|);
      Run(Step(g, inputs[0]), inputs[1..])
  }

  /** The invariant holds after any number of frames from any state that
      satisfies it, in particular from the initial state. */
  lemma {:induction false} RunPreservesInv(g: Game, inputs: seq<Input>)
    requires Inv(g)
    requires forall t :: 0 <= t < |inputs| ==> ValidInput(inputs[t], |g.platforms|)
    ensures Inv(Run(g, inputs))
    decreases |inputs|
  {
    if |inputs| > 0 {
      StepPreservesInv(g, inputs[0]);
      RunPreservesInv(Step(g, inputs[0]), inputs[1..]);
    }
  }

  /** Every state the program reaches, from any generated field through any
      sequence of frames, satisfies the invariant: no platform is ever below
      the screen bottom or outside the six slots, gravity always matches the
      jump impulse, and outside GAMEPLAY the scroll is stopped with the
      survival time at zero. */
  lemma ReachableInv(counts: seq<int>, slots: seq<seq<int>>, widths: seq<seq<int>>, inputs: seq<Input>)
    requires Layout.ValidDraws(counts, slots, widths)
    requires forall t :: 0 <= t < |inputs| ==> ValidInput(inputs[t], Layout.Total(counts))
    ensures var g := Initial(Layout.Field(counts, slots, widths), counts);
      Inv(Run(g, inputs))
  {
    var g := Initial(Layout.Field(counts, slots, widths), counts);
    InitialInv(counts, slots, widths);
    RunPreservesInv(g, inputs);
  }
}
