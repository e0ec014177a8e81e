/** Rectangles and the fixed constants of the game's world (src/main.cpp).
    The source's `float` coordinates are modelled as `real`, so every
    comparison below is exact. */
module Geometry {

  /** raylib's `Rectangle`: top-left corner, width and height. */
  datatype Rect = Rect(x: real, y: real, width: real, height: real)

  /** Screen height: a platform whose top passes it is recycled. */
  const ScreenBottom: real := 800.0
  /** The ground line: the player starts here, and falling to it ends the game. */
  const GroundY: real := 750.0
  /** The y a recycled platform is put back at. */
  const RecycleY: real := 10.0

  /** `platform_height`, also the vertical offset of every row. */
  const PlatformHeight: int := 20
  /** Horizontal size of one slot and vertical size of one row. */
  const SlotSize: int := 200
  /** `num_levels`: the number of generated rows. */
  const NumLevels: nat := 4
  /** Bounds of `GetRandomValue(1,5)` for the platforms of a row. */
  const MinPerRow: int := 1
  const MaxPerRow: int := 5
  /** Bounds of `GetRandomValue(100,150)` for a platform's width. */
  const MinWidth: int := 100
  const MaxWidth: int := 150
  /** Largest value of `GetRandomValue(0,5)` for a recycled platform's slot. */
  const MaxSlot: int := 5

  /** The x positions of the six slots a platform may occupy. */
  const SlotXs: set<real> := {0.0, 200.0, 400.0, 600.0, 800.0, 1000.0}

  /** The x coordinate of slot `s`, converted to `float` as the source does. */
  function SlotX(s: int): real
  {
    (s * SlotSize) as real
  }

  lemma SlotXInSlots(s: int)
    requires 0 <= s <= MaxSlot
    ensures SlotX(s) in SlotXs
  {
    if s == 0 {
    } else if s == 1 {
    } else if s == 2 {
    } else if s == 3 {
    } else if s == 4 {
    } else {
      assert s == 5;
    }
  }

  /** Slots are 200 apart, so distinct slots give distinct x positions. */
  lemma SlotXInjective(s: int, t: int)
    requires s != t
    ensures SlotX(s) != SlotX(t)
  {
  }
}
