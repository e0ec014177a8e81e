/** Generation of the initial platform field (src/main.cpp:43-66).

    Four row counts are drawn, summed into `total`, and each row i then
    places its platforms through one flat running index `count`. The random
    draws are inputs: `counts[i]` is row i's `GetRandomValue(1,5)`,
    `slots[i]` is row i's `LoadRandomSequence` result and `widths[i][j]` is
    the `GetRandomValue(100,150)` drawn for the j-th platform of row i (the
    same row-major order in which the source draws them). */
module Layout {
  import opened Geometry

  /** The per-row counts the source draws: four rows of 1 to 5 platforms. */
  predicate ValidCounts(counts: seq<int>)
  {
    |counts| == NumLevels &&
    forall i :: 0 <= i < |counts| ==> MinPerRow <= counts[i] <= MaxPerRow
  }

  /** Flat index of the first platform of row `i`: the sum of the counts of
      the rows before it, which is `count` when the source starts row `i`. */
  function RowStart(counts: seq<int>, i: nat): int
    requires i <= |counts|
  {
    if i == 0 then 0 else RowStart(counts, i - 1) + counts[i - 1]
  }

  /** `total`: the sum of all row counts. */
  function Total(counts: seq<int>): int
  {
    RowStart(counts, |counts|)
  }

  /** What the source relies on from its random draws. `LoadRandomSequence(n, 0, n)`
      yields n distinct values between 0 and n; every width is in [100,150]. */
  predicate ValidDraws(counts: seq<int>, slots: seq<seq<int>>, widths: seq<seq<int>>)
  {
    ValidCounts(counts) && |slots| == |counts| && |widths| == |counts| &&
    forall i :: 0 <= i < |counts| ==>
      |slots[i]| == counts[i] && |widths[i]| == counts[i] &&
      (forall j :: 0 <= j < counts[i] ==> 0 <= slots[i][j] <= counts[i]) &&
      (forall j :: 0 <= j < counts[i] ==> MinWidth <= widths[i][j] <= MaxWidth) &&
      (forall j1, j2 :: 0 <= j1 < j2 < counts[i] ==> slots[i][j1] != slots[i][j2])
  }

  /** The platform row `i` places in slot `slot` with width `width`. */
  function PlatformAt(i: int, slot: int, width: int): Rect
  {
    Rect(SlotX(slot), (SlotSize * i) as real + PlatformHeight as real, width as real, PlatformHeight as real)
  }

  /** The platforms of row `i`, in the order the inner loop writes them. */
  function Row(counts: seq<int>, slots: seq<seq<int>>, widths: seq<seq<int>>, i: nat): (row: seq<Rect>)
    requires ValidDraws(counts, slots, widths) && i < |counts|
  {
    seq(counts[i], j requires 0 <= j < counts[i] => PlatformAt(i, slots[i][j], widths[i][j]))
  }

  /** The platforms of rows `0..n-1`, concatenated in row order. */
  function RowsUpTo(counts: seq<int>, slots: seq<seq<int>>, widths: seq<seq<int>>, n: nat): (ps: seq<Rect>)
    requires ValidDraws(counts, slots, widths) && n <= |counts|
    ensures |ps| == RowStart(counts, n)
  {
    if n == 0 then [] else RowsUpTo(counts, slots, widths, n - 1) + Row(counts, slots, widths, n - 1)
  }

  /** The whole generated field, as a reference for the generation loop. */
  function Field(counts: seq<int>, slots: seq<seq<int>>, widths: seq<seq<int>>): (ps: seq<Rect>)
    requires ValidDraws(counts, slots, widths)
    ensures |ps| == Total(counts)
  {
    RowsUpTo(counts, slots, widths, |counts|)
  }

  /** Rows with at least one platform have strictly increasing starts. */
  lemma {:induction false} RowStartBounds(counts: seq<int>, i: nat)
    requires ValidCounts(counts) && i <= |counts|
    ensures i <= RowStart(counts, i) <= MaxPerRow * i
  {
    if i > 0 {
      RowStartBounds(counts, i - 1);
    }
  }

  lemma {:induction false} RowStartMonotone(counts: seq<int>, i: nat, n: nat)
    requires ValidCounts(counts) && i <= n <= |counts|
    ensures RowStart(counts, i) <= RowStart(counts, n)
    decreases n - i
  {
    if i < n {
      RowStartMonotone(counts, i + 1, n);
    }
  }

  /** The generated total is the sum of four counts in [1,5], hence in [4,20]. */
  lemma TotalBounds(counts: seq<int>)
    requires ValidCounts(counts)
    ensures NumLevels <= Total(counts) <= NumLevels * MaxPerRow
  {
    RowStartBounds(counts, |counts|);
  }

  /** The generation loop: it sums the counts into `total`, allocates exactly
      `total` platforms and fills them through the running index `count`.
      Every write is in bounds, `count` ends at `total`, and the array holds
      the rows in order. */
  method Generate(counts: seq<int>, slots: seq<seq<int>>, widths: seq<seq<int>>)
    returns (platforms: seq<Rect>, total: int, count: int)
    requires ValidDraws(counts, slots, widths)
    ensures total == Total(counts) && NumLevels <= total <= NumLevels * MaxPerRow
    ensures count == total && |platforms| == total
    ensures platforms == Field(counts, slots, widths)
  {
    total := 0;
    for i := 0 to NumLevels
      invariant total == RowStart(counts, i)
    {
      total := total + counts[i];
    }
    TotalBounds(counts);
    var all := new Rect[total](_ => Rect(0.0, 0.0, 0.0, 0.0));
    count := 0;
    for i := 0 to NumLevels
      invariant count == RowStart(counts, i) && count <= all.Length
      invariant all[..count] == RowsUpTo(counts, slots, widths, i)
    {
      RowStartMonotone(counts, i + 1, |counts|);
      for j := 0 to counts[i]
        invariant count == RowStart(counts, i) + j
        invariant all[..count] == RowsUpTo(counts, slots, widths, i) + Row(counts, slots, widths, i)[..j]
      {
        all[count] := PlatformAt(i, slots[i][j], widths[i][j]);
        count := count + 1;
      }
      assert Row(counts, slots, widths, i)[..counts[i]] == Row(counts, slots, widths, i);
    }
    assert all[..] == all[..count];
    platforms := all[..];
  }

  /** The flat index `RowStart(i) + j` of the j-th platform of row i holds
      exactly the platform that row placed there. */
  lemma {:induction false} FieldAt(counts: seq<int>, slots: seq<seq<int>>, widths: seq<seq<int>>, n: nat, i: nat, j: nat)
    requires ValidDraws(counts, slots, widths) && i < n <= |counts| && j < counts[i]
    ensures var k := RowStart(counts, i) + j;
      0 <= k < |RowsUpTo(counts, slots, widths, n)| &&
      RowsUpTo(counts, slots, widths, n)[k] == PlatformAt(i, slots[i][j], widths[i][j])
  {
    RowStartBounds(counts, i);
    if i < n - 1 {
      FieldAt(counts, slots, widths, n - 1, i, j);
    }
  }

  /** The row a flat index belongs to. */
  function RowOf(counts: seq<int>, k: int): (i: nat)
    requires ValidCounts(counts) && 0 <= k < Total(counts)
    ensures i < |counts| && RowStart(counts, i) <= k < RowStart(counts, i) + counts[i]
  {
    RowOfFrom(counts, k, 0)
  }

  function RowOfFrom(counts: seq<int>, k: int, i: nat): (r: nat)
    requires ValidCounts(counts) && i < |counts| && RowStart(counts, i) <= k < Total(counts)
    ensures i <= r < |counts| && RowStart(counts, r) <= k < RowStart(counts, r) + counts[r]
    decreases |counts| - i
  {
    if k < RowStart(counts, i) + counts[i] || i + 1 == |counts| then i
    else RowOfFrom(counts, k, i + 1)
  }

  /** Distinct (row, column) pairs have distinct flat indices; with `RowOf`
      this says that iterating the rows with their counts visits every index
      below `total` exactly once. */
  lemma FlatIndexInjective(counts: seq<int>, i: nat, j: nat, i': nat, j': nat)
    requires ValidCounts(counts) && i < |counts| && i' < |counts| && j < counts[i] && j' < counts[i']
    requires RowStart(counts, i) + j == RowStart(counts, i') + j'
    ensures i == i' && j == j'
  {
    if i < i' {
      RowStartMonotone(counts, i + 1, i');
    } else if i' < i {
      RowStartMonotone(counts, i' + 1, i);
    }
  }

  /** Geometry of a generated platform: row i's platforms sit at
      y = 200*i + 20 with height 20, x is 200 times the drawn slot (one of the
      six slot positions), and the width is the drawn one, in [100,150]. */
  lemma RowGeometry(counts: seq<int>, slots: seq<seq<int>>, widths: seq<seq<int>>, i: nat, j: nat)
    requires ValidDraws(counts, slots, widths) && i < |counts| && j < counts[i]
    ensures var k := RowStart(counts, i) + j;
      0 <= k < |Field(counts, slots, widths)| &&
      var p := Field(counts, slots, widths)[k];
      p.y == (SlotSize * i + PlatformHeight) as real &&
      p.height == PlatformHeight as real &&
      p.x == SlotX(slots[i][j]) && p.x in SlotXs &&
      MinWidth as real <= p.width <= MaxWidth as real
  {
    FieldAt(counts, slots, widths, |counts|, i, j);
    SlotXInSlots(slots[i][j]);
  }

  /** Distinct slots from the per-row sequence mean no two platforms of the
      same row start at the same x. */
  lemma RowXDistinct(counts: seq<int>, slots: seq<seq<int>>, widths: seq<seq<int>>, i: nat, j1: nat, j2: nat)
    requires ValidDraws(counts, slots, widths) && i < |counts| && j1 < counts[i] && j2 < counts[i] && j1 != j2
    ensures var ps, k1, k2 := Field(counts, slots, widths), RowStart(counts, i) + j1, RowStart(counts, i) + j2;
      0 <= k1 < |ps| && 0 <= k2 < |ps| && ps[k1].x != ps[k2].x
  {
    FieldAt(counts, slots, widths, |counts|, i, j1);
    FieldAt(counts, slots, widths, |counts|, i, j2);
    if j1 < j2 {
      SlotXInjective(slots[i][j1], slots[i][j2]);
    } else {
      SlotXInjective(slots[i][j2], slots[i][j1]);
    }
  }
}
