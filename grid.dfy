/** The 11 x 4 brick wall every restart builds. */
module Grid {
  import opened Geometry
  import opened Entities

  const CountX: int := 11
  const CountY: int := 4
  const StartColumn: int := 1
  const StartRow: int := 2
  const Spacing: real := 3.0
  const OffsetX: real := 22.0

  /** Number of bricks in the wall. */
  const WallSize: int := CountX * CountY

  /** The centre of the brick in column `iX` and row `iY`. */
  function BrickCentre(iX: int, iY: int): (c: Vec)
    ensures c.x == 22.0 + (iX + 1) as real * 63.0
    ensures c.y == (iY + 2) as real * 23.0
  {
    Vec(OffsetX + (iX + StartColumn) as real * (BrickWidth + Spacing),
        (iY + StartRow) as real * (BrickHeight + Spacing))
  }

  /** The hit count the last version gives each brick. */
  function RequiredHitsAt(iX: nat, iY: nat): (h: int)
    ensures 1 <= h <= 3
  {
    1 + (iX * iY) % 3
  }

  /** The brick the loops create for column `iX`, row `iY`. Versions without
      hit counting keep the default of one hit. */
  function GridBrick(iX: nat, iY: nat, counted: bool): Brick
  {
    var c := BrickCentre(iX, iY);
    NewBrick(c.x, c.y, if counted then RequiredHitsAt(iX, iY) else 1)
  }

  /** The bricks the inner loop creates for column `iX`, top to bottom. */
  function Column(iX: nat, counted: bool): (c: seq<Brick>)
    ensures |c| == CountY
    ensures forall iY :: 0 <= iY < CountY ==> c[iY] == GridBrick(iX, iY, counted)
  {
    [GridBrick(iX, 0, counted), GridBrick(iX, 1, counted), GridBrick(iX, 2, counted), GridBrick(iX, 3, counted)]
  }

  /** The bricks of the first `n` columns, in creation order. */
  function Columns(n: nat, counted: bool): (r: seq<Brick>)
    ensures |r| == n * CountY
  {
    if n == 0 then [] else Columns(n - 1, counted) + Column(n - 1, counted)
  }

  /** The wall as the nested loops create it. */
  function Wall(counted: bool): (w: seq<Brick>)
    ensures |w| == WallSize
  {
    Columns(CountX, counted)
  }

  /** The outer loop runs over columns, so the k-th brick created is in
      column k / 4 and row k % 4. */
  lemma {:induction false} ColumnsAt(n: nat, counted: bool, k: nat)
    requires k < n * CountY
    ensures Columns(n, counted)[k] == GridBrick(k / CountY, k % CountY, counted)
  {
    var m := n - 1;
    if k < m * CountY {
      ColumnsAt(m, counted, k);
    } else {
      assert k / CountY == m && k % CountY == k - m * CountY;
    }
  }

  lemma WallAt(counted: bool)
    ensures forall k :: 0 <= k < WallSize ==> Wall(counted)[k] == GridBrick(k / CountY, k % CountY, counted)
  {
    forall k | 0 <= k < WallSize
      ensures Wall(counted)[k] == GridBrick(k / CountY, k % CountY, counted)
    {
      ColumnsAt(CountX, counted, k);
    }
  }

  /** One more brick of the inner loop: the bricks created so far, as
      whole columns and a part of the current one. */
  lemma ColumnStep(iX: nat, iY: nat, counted: bool)
    requires iY < CountY
    ensures Columns(iX, counted) + Column(iX, counted)[..iY] + [GridBrick(iX, iY, counted)]
      == Columns(iX, counted) + Column(iX, counted)[..iY + 1]
  {
    assert Column(iX, counted)[..iY + 1] == Column(iX, counted)[..iY] + [GridBrick(iX, iY, counted)];
  }

  /** The end of the inner loop is the start of the next column. */
  lemma ColumnDone(iX: nat, counted: bool)
    ensures Columns(iX, counted) + Column(iX, counted)[..CountY] == Columns(iX + 1, counted)
  {
    assert Column(iX, counted)[..CountY] == Column(iX, counted);
  }

  /** Every brick of the wall needs 1 to 3 hits and none is destroyed. */
  lemma WallBricksFresh(counted: bool)
    ensures forall k :: 0 <= k < WallSize ==>
      1 <= Wall(counted)[k].requiredHits <= 3 && !Wall(counted)[k].destroyed
  {
    WallAt(counted);
  }

  /** Every brick lies inside the window, within the band x in [55, 745],
      y in [36, 125]. */
  lemma WallInsideWindow(counted: bool)
    ensures forall k :: 0 <= k < WallSize ==>
      var b := BrickBox(Wall(counted)[k]);
      55.0 <= b.left && b.right <= 745.0 && 36.0 <= b.top && b.bottom <= 125.0
  {
    WallAt(counted);
    forall k | 0 <= k < WallSize
      ensures var b := BrickBox(Wall(counted)[k]);
        55.0 <= b.left && b.right <= 745.0 && 36.0 <= b.top && b.bottom <= 125.0
    {
      assert 0 <= k / CountY < CountX && 0 <= k % CountY < CountY;
    }
  }

  /** Bricks in different cells are 3 apart, so no two closed boxes of the
      wall intersect. */
  lemma WallBricksDisjoint(counted: bool)
    ensures forall i, j :: 0 <= i < j < WallSize ==>
      !IsIntersecting(BrickBox(Wall(counted)[i]), BrickBox(Wall(counted)[j]))
  {
    WallAt(counted);
    forall i, j | 0 <= i < j < WallSize
      ensures !IsIntersecting(BrickBox(Wall(counted)[i]), BrickBox(Wall(counted)[j]))
    {
      CellsApart(i / CountY, i % CountY, j / CountY, j % CountY);
    }
  }

  lemma CellsApart(aX: nat, aY: nat, bX: nat, bY: nat)
    requires aX != bX || aY != bY
    ensures !IsIntersecting(BrickBox(GridBrick(aX, aY, false)), BrickBox(GridBrick(bX, bY, false)))
    ensures !IsIntersecting(BrickBox(GridBrick(aX, aY, true)), BrickBox(GridBrick(bX, bY, true)))
  {
    if aX < bX {
      assert (aX + 1) as real * 63.0 + 63.0 <= (bX + 1) as real * 63.0;
    } else if bX < aX {
      assert (bX + 1) as real * 63.0 + 63.0 <= (aX + 1) as real * 63.0;
    } else if aY < bY {
      assert (aY + 2) as real * 23.0 + 23.0 <= (bY + 2) as real * 23.0;
    } else {
      assert (bY + 2) as real * 23.0 + 23.0 <= (aY + 2) as real * 23.0;
    }
  }
}
