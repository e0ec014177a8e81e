/** Platform scrolling, recycling and the difficulty ramp
    (src/main.cpp:85-101). It runs only once the first jump has set
    `gameStart`. */
module Scroller {
  import opened Geometry
  import opened Session

  /** The two draws a recycled platform consumes: `GetRandomValue(0,5)` for
      its slot and `GetRandomValue(100,150)` for its width. */
  datatype Redraw = Redraw(slot: int, width: int)

  /** One draw pair per platform, each in the range the source asks for. A
      platform that is not recycled ignores its pair. */
  predicate ValidRedraws(redraws: seq<Redraw>, n: int)
  {
    |redraws| == n &&
    forall i :: 0 <= i < |redraws| ==>
      0 <= redraws[i].slot <= MaxSlot && MinWidth <= redraws[i].width <= MaxWidth
  }

  /** Whether a platform at `y` passes the screen bottom after moving by
      `platformSpeed * dt`. */
  predicate Recycled(p: Rect, platformSpeed: real, dt: real)
  {
    p.y + platformSpeed * dt > ScreenBottom
  }

  /** One platform's scroll step: move down, and if it passed the bottom of the
      screen, put it back near the top at a fresh slot with a fresh width. */
  function ScrollPlatform(p: Rect, platformSpeed: real, dt: real, d: Redraw): (q: Rect)
  {
    var moved := p.(y := p.y + platformSpeed * dt);
    if moved.y > ScreenBottom then
      moved.(y := RecycleY, x := SlotX(d.slot), width := d.width as real)
    else
      moved
  }

  /** The scroll step of a gameplay frame. With `gameStart` clear it changes
      nothing; otherwise every platform moves and the ramp is applied once. */
  function Scroll(g: Game, dt: real, redraws: seq<Redraw>): (r: Game)
    requires |redraws| == |g.platforms|
    ensures |r.platforms| == |g.platforms| && r.rowCounts == g.rowCounts
    ensures r.player == g.player && r.velocityY == g.velocityY && r.isOnGround == g.isOnGround
    ensures r.gameStart == g.gameStart && r.screen == g.screen
    ensures !g.gameStart ==> r == g
  {
    if !g.gameStart then g
    else
      var jumpforce := g.jumpforce - 0.7;
      g.(platforms := seq(|g.platforms|, i requires 0 <= i < |g.platforms| =>
                          ScrollPlatform(g.platforms[i], g.platformSpeed, dt, redraws[i])),
         platformSpeed := g.platformSpeed + 0.1,
         jumpforce := jumpforce,
         gravity := GravityFor(jumpforce),
         speed := g.speed + 0.5,
         survivalTime := g.survivalTime + dt)
  }

  /** What an active scroll step does to every platform: heights are kept,
      nothing is left below the screen bottom, a platform that passed it is
      back at y = 10 in one of the six slots with a width in [100,150], and
      every other platform moved down by exactly `platformSpeed * dt`. */
  lemma ScrollPlatforms(g: Game, dt: real, redraws: seq<Redraw>, i: int)
    requires g.gameStart && ValidRedraws(redraws, |g.platforms|) && 0 <= i < |g.platforms|
    ensures var p, q := g.platforms[i], Scroll(g, dt, redraws).platforms[i];
      q.height == p.height && q.y <= ScreenBottom &&
      (Recycled(p, g.platformSpeed, dt) ==>
         q.y == RecycleY && q.x in SlotXs && MinWidth as real <= q.width <= MaxWidth as real) &&
      (!Recycled(p, g.platformSpeed, dt) ==>
         q.y == p.y + g.platformSpeed * dt && q.x == p.x && q.width == p.width)
  {
    SlotXInSlots(redraws[i].slot);
  }

  /** The ramp applied by an active scroll step, exactly as written: scroll
      speed up by 0.1, jump impulse down by 0.7, gravity recomputed from the
      new impulse, move speed up by 0.5, survival time up by `dt`. */
  lemma ScrollRamp(g: Game, dt: real, redraws: seq<Redraw>)
    requires g.gameStart && |redraws| == |g.platforms|
    ensures var r := Scroll(g, dt, redraws);
      r.platformSpeed == g.platformSpeed + 0.1 &&
      r.jumpforce == g.jumpforce - 0.7 &&
      r.gravity == r.jumpforce * r.jumpforce / 800.0 &&
      r.speed == g.speed + 0.5 &&
      r.survivalTime == g.survivalTime + dt
  {
  }

  /** One scroll step's inputs: its `dt` and its recycle draws. */
  datatype ScrollStep = ScrollStep(dt: real, redraws: seq<Redraw>)

  /** Consecutive scroll steps, without the landing scan and physics that a
      full gameplay frame also runs. */
  function ScrollSteps(g: Game, steps: seq<ScrollStep>): (r: Game)
    requires forall k :: 0 <= k < |steps| ==> |steps[k].redraws| == |g.platforms|
    ensures |r.platforms| == |g.platforms| && r.gameStart == g.gameStart
    decreases |steps|
  {
    if |steps| == 0 then g
    else
      var g' := Scroll(g, steps[0].dt, steps[0].redraws);
      ScrollSteps(g', steps[1..])
  }

  function SumDt(steps: seq<ScrollStep>): real
  {
    if |steps| == 0 then 0.0 else steps[0].dt + SumDt(steps[1..])
  }

  /** Across N consecutive active scroll steps the ramp accumulates linearly: the
      scroll speed grows by N/10, the move speed by N/2, the jump impulse
      falls by 7N/10 (so its magnitude grows while it is negative), gravity
      still equals impulse squared over 800, and the survival time grows by
      the sum of the step times. */
  lemma {:induction false} RampOverScrollSteps(g: Game, steps: seq<ScrollStep>)
    requires g.gameStart
    requires forall k :: 0 <= k < |steps| ==> |steps[k].redraws| == |g.platforms|
    ensures var r, n := ScrollSteps(g, steps), |steps| as real;
      r.platformSpeed == g.platformSpeed + n * 0.1 &&
      r.speed == g.speed + n * 0.5 &&
      r.jumpforce == g.jumpforce - n * 0.7 &&
      r.survivalTime == g.survivalTime + SumDt(steps) &&
      (|steps| > 0 ==> r.gravity == r.jumpforce * r.jumpforce / 800.0)
    decreases |steps|
  {
    if |steps| > 0 {
      var g' := Scroll(g, steps[0].dt, steps[0].redraws);
      ScrollRamp(g, steps[0].dt, steps[0].redraws);
      RampOverScrollSteps(g', steps[1..]);
    }
  }
}
