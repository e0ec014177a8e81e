/** The landing test of a gameplay frame (src/main.cpp:102-127): a swept
    test of the player's bottom edge against each platform's top edge, using
    the velocity from before this frame's physics, scanned row by row in flat
    index order until the first platform that also overlaps horizontally. */
module Collision {
  import opened Geometry
  import opened Session
  import Layout

  datatype Option<T> = None | Some(value: T)

  /** The bottom edge is at or above the platform top now, and at or below
      it after moving by `vy * dt`. */
  predicate Crossing(player: Rect, p: Rect, vy: real, dt: real)
  {
    player.y + player.height <= p.y && player.y + player.height + vy * dt >= p.y
  }

  /** The player and the platform overlap horizontally (strictly). */
  predicate Overlap(player: Rect, p: Rect)
  {
    player.x + player.width > p.x && player.x < p.x + p.width
  }

  /** A full match: the player lands on `p` this frame. */
  predicate Lands(player: Rect, p: Rect, vy: real, dt: real)
  {
    Crossing(player, p, vy, dt) && Overlap(player, p)
  }

  /** A crossing without overlap: the source clears `isOnGround` for it. */
  predicate Misses(player: Rect, p: Rect, vy: real, dt: real)
  {
    Crossing(player, p, vy, dt) && !Overlap(player, p)
  }

  predicate AnyMiss(ps: seq<Rect>, player: Rect, vy: real, dt: real)
  {
    exists m :: 0 <= m < |ps| && Misses(player, ps[m], vy, dt)
  }

  /** The first platform at or after `from`, in flat index order, that the
      player lands on. */
  function FirstLanding(ps: seq<Rect>, player: Rect, vy: real, dt: real, from: nat): (r: Option<nat>)
    requires from <= |ps|
    ensures r.Some? ==>
      from <= r.value < |ps| && Lands(player, ps[r.value], vy, dt) &&
      forall m :: from <= m < r.value ==> !Lands(player, ps[m], vy, dt)
    ensures r.None? ==> forall m :: from <= m < |ps| ==> !Lands(player, ps[m], vy, dt)
    decreases |ps| - from
  {
    if from == |ps| then None
    else if Lands(player, ps[from], vy, dt) then Some(from)
    else FirstLanding(ps, player, vy, dt, from + 1)
  }

  /** The outcome of the scan, stated for the whole frame at once: on the
      first landing the player is snapped onto that platform, rides at the
      scroll speed and is on the ground; with no landing the player keeps
      position and velocity, and is on the ground only if it was, stands
      exactly on the ground line and crossed no platform edge-on. */
  function Resolve(g: Game, dt: real): (r: Game)
    ensures r == g.(player := r.player, velocityY := r.velocityY, isOnGround := r.isOnGround)
    ensures r.player == g.player.(y := r.player.y)
    ensures (exists k :: 0 <= k < |g.platforms| && Lands(g.player, g.platforms[k], g.velocityY, dt)) ==>
      r.isOnGround && r.velocityY == g.platformSpeed &&
      g.player.y <= r.player.y <= g.player.y + g.velocityY * dt &&
      exists k :: 0 <= k < |g.platforms| && Lands(g.player, g.platforms[k], g.velocityY, dt) &&
        (forall m :: 0 <= m < k ==> !Lands(g.player, g.platforms[m], g.velocityY, dt)) &&
        r.player.y == g.platforms[k].y - g.player.height
    ensures (forall k :: 0 <= k < |g.platforms| ==> !Lands(g.player, g.platforms[k], g.velocityY, dt)) ==>
      r.player == g.player && r.velocityY == g.velocityY &&
      (g.player.y != GroundY ==> !r.isOnGround) &&
      (g.player.y == GroundY ==>
         (r.isOnGround <==> g.isOnGround && !AnyMiss(g.platforms, g.player, g.velocityY, dt)))
  {
    match FirstLanding(g.platforms, g.player, g.velocityY, dt, 0)
    case Some(k) =>
      g.(player := g.player.(y := g.platforms[k].y - g.player.height),
         velocityY := g.platformSpeed,
         isOnGround := true)
    case None =>
      g.(isOnGround := g.player.y == GroundY && g.isOnGround &&
                       !AnyMiss(g.platforms, g.player, g.velocityY, dt))
  }

  /** The scan exactly as the source runs it: rows in order, each row's
      columns in order, one running flat index, `isOnGround` cleared on every
      crossing without overlap, and both loops left on the first landing.
      Its outcome is the whole-frame statement `Resolve`. */
  method ScanRows(g: Game, dt: real) returns (r: Game, collided: bool)
    requires Layout.ValidCounts(g.rowCounts) && |g.platforms| == Layout.Total(g.rowCounts)
    ensures r == Resolve(g, dt)
    ensures collided <==> exists k :: 0 <= k < |g.platforms| && Lands(g.player, g.platforms[k], g.velocityY, dt)
  {
    var ps, counts := g.platforms, g.rowCounts;
    var player, velocityY, isOnGround := g.player, g.velocityY, g.isOnGround;
    collided := false;
    var count := 0;
    ghost var hit := 0;
    for i := 0 to NumLevels
      invariant count == Layout.RowStart(counts, i) && count <= |ps| && !collided
      invariant player == g.player && velocityY == g.velocityY
      invariant forall m :: 0 <= m < count ==> !Lands(g.player, ps[m], g.velocityY, dt)
      invariant isOnGround == (g.isOnGround && forall m :: 0 <= m < count ==> !Misses(g.player, ps[m], g.velocityY, dt))
    {
      Layout.RowStartMonotone(counts, i + 1, |counts|);
      for j := 0 to counts[i]
        invariant count == Layout.RowStart(counts, i) + j && !collided
        invariant player == g.player && velocityY == g.velocityY
        invariant forall m :: 0 <= m < count ==> !Lands(g.player, ps[m], g.velocityY, dt)
        invariant isOnGround == (g.isOnGround && forall m :: 0 <= m < count ==> !Misses(g.player, ps[m], g.velocityY, dt))
      {
        var platform := ps[count];
        count := count + 1;
        if player.y + player.height <= platform.y && player.y + player.height + velocityY * dt >= platform.y {
          if player.x + player.width > platform.x && player.x < platform.x + platform.width {
            player := player.(y := platform.y - player.height);
            velocityY := g.platformSpeed;
            isOnGround := true;
            collided := true;
            hit := count - 1;
            break;
          } else {
            isOnGround := false;
          }
        }
      }
      if collided {
        break;
      }
    }
    if player.y != GroundY && !collided {
      isOnGround := false;
    }
    r := g.(player := player, velocityY := velocityY, isOnGround := isOnGround);
    if collided {
      assert Lands(g.player, ps[hit], g.velocityY, dt);
      assert FirstLanding(ps, g.player, g.velocityY, dt, 0) == Some(hit);
    } else {
      assert count == |ps|;
    }
  }

  /** The scan ends at the first landing: whatever follows that platform in
      the sequence has no effect on the outcome. */
  lemma NoLaterPlatformExamined(g: Game, dt: real, k: nat, tail: seq<Rect>)
    requires k < |g.platforms| && Lands(g.player, g.platforms[k], g.velocityY, dt)
    requires forall m :: 0 <= m < k ==> !Lands(g.player, g.platforms[m], g.velocityY, dt)
    ensures var g' := g.(platforms := g.platforms[..k + 1] + tail);
      var r, r' := Resolve(g, dt), Resolve(g', dt);
      r'.player == r.player && r'.velocityY == r.velocityY && r'.isOnGround == r.isOnGround
  {
    var ps' := g.platforms[..k + 1] + tail;
    assert ps'[k] == g.platforms[k];
    assert forall m :: 0 <= m < k ==> ps'[m] == g.platforms[m];
    assert FirstLanding(g.platforms, g.player, g.velocityY, dt, 0) == Some(k);
    assert FirstLanding(ps', g.player, g.velocityY, dt, 0) == Some(k);
  }
}
