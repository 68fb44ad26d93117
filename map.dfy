/** The dungeon grid of src/map.rs: row-major tiles with per-cell revealed,
    visible and blocked flags and the list of entities standing in each cell.
    The coordinate helpers only depend on the width (and height), so they are
    functions of those numbers; the grid itself is a class whose vectors the
    carving helpers and the systems update in place. */
module GameMap {
  import opened Components

  datatype TileType = Wall | Floor

  /** crate::Rect as the room carver uses it: corners (x1, y1) and (x2, y2). */
  datatype Rect = Rect(x1: int, y1: int, x2: int, y2: int)

  function Min(a: int, b: int): int { if a <= b then a else b }
  function Max(a: int, b: int): int { if a <= b then b else a }

  /** Rust's `/` on i32: the quotient truncated toward zero. */
  function TruncDiv(a: int, b: int): int
    requires b != 0
  {
    var q := (if a < 0 then -a else a) / (if b < 0 then -b else b);
    if (a < 0) == (b < 0) then q else -q
  }

  /** Rust's `%` on i32: the remainder has the sign of the dividend. */
  function TruncRem(a: int, b: int): int
    requires b != 0
  {
    a - b * TruncDiv(a, b)
  }

  /** Map::xy_idx, before its cast to usize. */
  function XyIdx(width: int, x: int, y: int): int {
    y * width + x
  }

  /** Algorithm2D::point2d_to_index. */
  function Point2dToIndex(width: int, p: Point): int {
    p.y * width + p.x
  }

  /** Algorithm2D::index_to_point2d; Rust panics on a zero width. */
  function IndexToPoint2d(width: int, idx: int): Point
    requires width != 0
  {
    Point(TruncRem(idx, width), TruncDiv(idx, width))
  }

  /** Algorithm2D::in_bounds. */
  predicate InBounds(width: int, height: int, p: Point) {
    0 <= p.x < width && 0 <= p.y < height
  }

  /** Map::is_valid_idx: the row-major index, cast to usize, is below
      width * height. A negative i32 index casts to a huge usize, so it is
      never valid. */
  predicate IsValidIdx(width: int, height: int, x: int, y: int) {
    0 <= XyIdx(width, x, y) < width * height
  }

  lemma XyIdxIsPoint2dToIndex(width: int, x: int, y: int)
    ensures XyIdx(width, x, y) == Point2dToIndex(width, Point(x, y)) == y * width + x
  {
  }

  lemma MulAtLeast(k: int, w: int)
    requires k >= 1 && w >= 0
    ensures k * w >= w
  {
    assert k * w == (k - 1) * w + w;
    assert (k - 1) * w >= 0;
  }

  /** Row-major coordinates name each cell of a row of width w once. */
  lemma RowMajorUnique(w: int, x: int, y: int, x': int, y': int)
    requires w > 0 && 0 <= x < w && 0 <= x' < w
    requires y * w + x == y' * w + x'
    ensures x == x' && y == y'
  {
    assert (y' - y) * w == y' * w - y * w;
    if y < y' {
      MulAtLeast(y' - y, w);
    } else if y' < y {
      MulAtLeast(y - y', w);
    }
  }

  /** index_to_point2d undoes point2d_to_index on every in-bounds point. */
  lemma {:induction false} IndexRoundTrip(width: int, height: int, p: Point)
    requires InBounds(width, height, p)
    ensures IndexToPoint2d(width, Point2dToIndex(width, p)) == p
  {
    var idx := Point2dToIndex(width, p);
    assert idx >= 0 by { assert p.y * width >= 0; }
    TruncMatchesEuclid(idx, width);
    assert idx == (idx / width) * width + idx % width;
    RowMajorUnique(width, p.x, p.y, idx % width, idx / width);
  }

  /** On non-negative operands Rust's truncating operators agree with
      Dafny's Euclidean ones. */
  lemma TruncMatchesEuclid(a: int, b: int)
    requires a >= 0 && b > 0
    ensures TruncDiv(a, b) == a / b && TruncRem(a, b) == a % b
  {
    assert a == (a / b) * b + a % b;
  }

  /** point2d_to_index then index_to_point2d is the identity on valid indices. */
  lemma {:induction false} PointRoundTrip(width: int, height: int, idx: int)
    requires width > 0 && 0 <= idx < width * height
    ensures InBounds(width, height, IndexToPoint2d(width, idx))
    ensures Point2dToIndex(width, IndexToPoint2d(width, idx)) == idx
  {
    var q, r := idx / width, idx % width;
    TruncMatchesEuclid(idx, width);
    assert IndexToPoint2d(width, idx) == Point(r, q);
    assert idx == q * width + r;
    QuotientBelow(idx, width, height);
  }

  /** A quotient of an index below width * height is below height. */
  lemma QuotientBelow(idx: int, width: int, height: int)
    requires width > 0 && 0 <= idx < width * height
    ensures 0 <= idx / width < height
  {
    var q := idx / width;
    assert q * width <= idx;
    if q >= height {
      MulAtLeast(q - height + 1, width);
      assert false;
    }
  }

  /** Every in-bounds point has a valid index. */
  lemma {:induction false} InBoundsIsValid(width: int, height: int, x: int, y: int)
    requires InBounds(width, height, Point(x, y))
    ensures IsValidIdx(width, height, x, y)
  {
    assert y * width >= 0;
    MulAtLeast(height - y, width);
    assert (height - y) * width == height * width - y * width;
  }

  /** The converse fails: one past the end of row 0 is the start of row 1. */
  lemma ValidIsNotInBounds()
    ensures IsValidIdx(3, 2, 3, 0) && !InBounds(3, 2, Point(3, 0))
  {
  }

  class Map {
    var tiles: seq<TileType>
    var rooms: seq<Rect>
    const width: int
    const height: int
    var revealed: seq<bool>
    var visible: seq<bool>
    var blocked: seq<bool>
    var tileContent: seq<seq<Entity>>

    /** Every per-cell vector has one slot per cell. */
    ghost predicate Valid()
      reads this
    {
      && 0 <= width * height
      && |tiles| == width * height
      && |revealed| == width * height
      && |visible| == width * height
      && |blocked| == width * height
      && |tileContent| == width * height
    }

    /** Map::new; `(width * height) as usize` must not be negative.
        blocked and tile_content, which src/map.rs does not declare, start all
        clear and empty. */
    constructor (width: int, height: int, tileType: TileType)
      requires 0 <= width * height
      ensures Valid()
      ensures this.width == width && this.height == height
      ensures forall i :: 0 <= i < |tiles| ==> tiles[i] == tileType
      ensures forall i :: 0 <= i < |revealed| ==> !revealed[i]
      ensures forall i :: 0 <= i < |visible| ==> !visible[i]
      ensures forall i :: 0 <= i < |blocked| ==> !blocked[i]
      ensures forall i :: 0 <= i < |tileContent| ==> tileContent[i] == []
      ensures rooms == []
    {
      this.width := width;
      this.height := height;
      var n := width * height;
      tiles := seq(n, _ => tileType);
      rooms := [];
      revealed := seq(n, _ => false);
      visible := seq(n, _ => false);
      blocked := seq(n, _ => false);
      tileContent := seq(n, _ => []);
    }

    /** Map::set; indexing the tile vector panics on an invalid index. */
    method Set(x: int, y: int, tile: TileType)
      requires Valid() && IsValidIdx(width, height, x, y)
      modifies this`tiles
      ensures Valid()
      ensures tiles == old(tiles)[XyIdx(width, x, y) := tile]
    {
      var idx := XyIdx(width, x, y);
      tiles := tiles[idx := tile];
    }

    /** Map::safe_set: writes only through a valid index. */
    method SafeSet(x: int, y: int, tile: TileType)
      requires Valid()
      modifies this`tiles
      ensures Valid()
      ensures tiles == if IsValidIdx(width, height, x, y) then old(tiles)[XyIdx(width, x, y) := tile] else old(tiles)
    {
      if IsValidIdx(width, height, x, y) {
        Set(x, y, tile);
      }
    }

    /** Map::get. */
    function Get(x: int, y: int): TileType
      reads this
      requires Valid() && IsValidIdx(width, height, x, y)
    {
      tiles[XyIdx(width, x, y)]
    }

    /** Map::safe_get: Some exactly on valid indices, holding that tile. */
    function SafeGet(x: int, y: int): (r: Option<TileType>)
      reads this
      requires Valid()
      ensures r.Some? <==> IsValidIdx(width, height, x, y)
      ensures r.Some? ==> r.value == tiles[XyIdx(width, x, y)]
    {
      if IsValidIdx(width, height, x, y) then Some(Get(x, y)) else None
    }

    /** BaseMap::is_opaque: walls stop sight. */
    predicate IsOpaque(idx: int)
      reads this
      requires Valid() && 0 <= idx < |tiles|
    {
      tiles[idx] == Wall
    }

    /** Map::is_blocked (src/map.rs does not define it): blocked[] at the
        cell, and blocked outright when the cell has no valid index. */
    predicate IsBlocked(x: int, y: int)
      reads this
      requires Valid()
    {
      CellBlocked(blocked, width, height, x, y)
    }
  }

  /** The blocked test on a blocked vector of one flag per cell. */
  predicate CellBlocked(blocked: seq<bool>, width: int, height: int, x: int, y: int)
    requires |blocked| == width * height
  {
    !IsValidIdx(width, height, x, y) || blocked[XyIdx(width, x, y)]
  }

  lemma IsOpaqueIffWall(m: Map, idx: int)
    requires m.Valid() && 0 <= idx < |m.tiles|
    ensures m.IsOpaque(idx) <==> m.tiles[idx] == Wall
    ensures m.IsOpaque(idx) <==> m.tiles[idx] != Floor
  {
  }

  /** Cell i lies on row y at a column in [lo, hi] (row-major, so a column
      outside [0, width) wraps onto a neighbouring row). */
  predicate RowCell(width: int, lo: int, hi: int, y: int, i: int) {
    lo <= i - y * width <= hi
  }

  /** Cell i lies at column x on some row in [lo, hi]. */
  predicate ColumnCell(width: int, x: int, yy: int, i: int) {
    yy * width + x == i
  }

  ghost predicate InColumn(width: int, lo: int, hi: int, x: int, i: int) {
    exists yy :: lo <= yy <= hi && ColumnCell(width, x, yy, i)
  }

  /** Cell i lies on row yy at a column in (x1, x2] of the room. */
  predicate RoomCell(width: int, room: Rect, yy: int, i: int) {
    room.x1 < i - yy * width <= room.x2
  }

  /** Cell i is carved by the rows of apply_room_to_map below yEnd. */
  ghost predicate InRoomRows(width: int, room: Rect, yEnd: int, i: int) {
    exists yy :: room.y1 < yy < yEnd && RoomCell(width, room, yy, i)
  }

  ghost predicate InRoom(width: int, room: Rect, i: int) {
    InRoomRows(width, room, room.y2 + 1, i)
  }

  /** apply_horizontal_tunnel: Floor on row y for x from min(x1,x2) to
      max(x1,x2), through safe_set. */
  method ApplyHorizontalTunnel(grid: Map, x1: int, x2: int, y: int)
    requires grid.Valid()
    modifies grid`tiles
    ensures grid.Valid()
    ensures forall i :: 0 <= i < |grid.tiles| ==>
      grid.tiles[i] == if RowCell(grid.width, Min(x1, x2), Max(x1, x2), y, i) then Floor else old(grid.tiles[i])
  {
    var x := Min(x1, x2);
    while x <= Max(x1, x2)
      invariant grid.Valid()
      invariant Min(x1, x2) <= x <= Max(x1, x2) + 1
      invariant forall i :: 0 <= i < |grid.tiles| ==>
        grid.tiles[i] == if RowCell(grid.width, Min(x1, x2), x - 1, y, i) then Floor else old(grid.tiles[i])
    {
      grid.SafeSet(x, y, Floor);
      x := x + 1;
    }
  }

  /** apply_vertical_tunnel: Floor in column x for y from min(y1,y2) to
      max(y1,y2), through safe_set. */
  method ApplyVerticalTunnel(grid: Map, y1: int, y2: int, x: int)
    requires grid.Valid()
    modifies grid`tiles
    ensures grid.Valid()
    ensures forall i :: 0 <= i < |grid.tiles| ==>
      grid.tiles[i] == if InColumn(grid.width, Min(y1, y2), Max(y1, y2), x, i) then Floor else old(grid.tiles[i])
  {
    var y := Min(y1, y2);
    while y <= Max(y1, y2)
      invariant grid.Valid()
      invariant Min(y1, y2) <= y <= Max(y1, y2) + 1
      invariant forall i :: 0 <= i < |grid.tiles| ==>
        grid.tiles[i] == if InColumn(grid.width, Min(y1, y2), y - 1, x, i) then Floor else old(grid.tiles[i])
    {
      ghost var before := grid.tiles;
      grid.SafeSet(x, y, Floor);
      forall i | 0 <= i < |grid.tiles|
        ensures grid.tiles[i] == if InColumn(grid.width, Min(y1, y2), y, x, i) then Floor else old(grid.tiles[i])
      {
        if ColumnCell(grid.width, x, y, i) {
          assert InColumn(grid.width, Min(y1, y2), y, x, i);
        } else if InColumn(grid.width, Min(y1, y2), y, x, i) {
          var yy :| Min(y1, y2) <= yy <= y && ColumnCell(grid.width, x, yy, i);
          assert yy != y;
          assert InColumn(grid.width, Min(y1, y2), y - 1, x, i);
        }
      }
      y := y + 1;
    }
  }

  /** apply_room_to_map: Floor on x in (x1, x2] and y in (y1, y2], through
      the unchecked set, so every such cell needs a valid index. */
  method ApplyRoomToMap(grid: Map, room: Rect)
    requires grid.Valid()
    requires forall x, y :: room.x1 < x <= room.x2 && room.y1 < y <= room.y2 ==> IsValidIdx(grid.width, grid.height, x, y)
    modifies grid`tiles
    ensures grid.Valid()
    ensures forall i :: 0 <= i < |grid.tiles| ==>
      grid.tiles[i] == if InRoom(grid.width, room, i) then Floor else old(grid.tiles[i])
  {
    var y := room.y1 + 1;
    while y <= room.y2
      invariant grid.Valid()
      invariant room.y1 + 1 <= y && (y <= room.y2 + 1 || y == room.y1 + 1)
      invariant forall i :: 0 <= i < |grid.tiles| ==>
        grid.tiles[i] == if InRoomRows(grid.width, room, y, i) then Floor else old(grid.tiles[i])
    {
      var x := room.x1 + 1;
      while x <= room.x2
        invariant grid.Valid()
        invariant room.x1 + 1 <= x && (x <= room.x2 + 1 || x == room.x1 + 1)
        invariant forall i :: 0 <= i < |grid.tiles| ==>
          grid.tiles[i] == if InRoomRows(grid.width, room, y, i) || RowCell(grid.width, room.x1 + 1, x - 1, y, i) then Floor else old(grid.tiles[i])
      {
        grid.Set(x, y, Floor);
        x := x + 1;
      }
      forall i | 0 <= i < |grid.tiles|
        ensures InRoomRows(grid.width, room, y + 1, i) <==> InRoomRows(grid.width, room, y, i) || RowCell(grid.width, room.x1 + 1, x - 1, y, i)
      {
        if RowCell(grid.width, room.x1 + 1, x - 1, y, i) {
          assert RoomCell(grid.width, room, y, i);
        }
        if InRoomRows(grid.width, room, y + 1, i) {
          var yy :| room.y1 < yy < y + 1 && RoomCell(grid.width, room, yy, i);
          if yy < y {
            assert InRoomRows(grid.width, room, y, i);
          }
        }
      }
      y := y + 1;
    }
  }

  /** Within the grid, a horizontal tunnel whose ends lie inside the row
      carves exactly the cells of row y between the ends. */
  lemma {:induction false} HorizontalTunnelCells(width: int, height: int, x1: int, x2: int, y: int, p: Point)
    requires 0 <= x1 < width && 0 <= x2 < width
    requires InBounds(width, height, p)
    ensures RowCell(width, Min(x1, x2), Max(x1, x2), y, XyIdx(width, p.x, p.y))
      <==> p.y == y && Min(x1, x2) <= p.x <= Max(x1, x2)
  {
    var c := XyIdx(width, p.x, p.y) - y * width;
    if Min(x1, x2) <= c <= Max(x1, x2) {
      assert y * width + c == p.y * width + p.x;
      RowMajorUnique(width, c, y, p.x, p.y);
    }
  }

  /** Within the grid, a vertical tunnel in an in-bounds column carves
      exactly the cells of column x between the ends. */
  lemma {:induction false} VerticalTunnelCells(width: int, height: int, y1: int, y2: int, x: int, p: Point)
    requires 0 <= x < width
    requires InBounds(width, height, p)
    ensures InColumn(width, Min(y1, y2), Max(y1, y2), x, XyIdx(width, p.x, p.y))
      <==> p.x == x && Min(y1, y2) <= p.y <= Max(y1, y2)
  {
    var i := XyIdx(width, p.x, p.y);
    if InColumn(width, Min(y1, y2), Max(y1, y2), x, i) {
      var yy :| Min(y1, y2) <= yy <= Max(y1, y2) && ColumnCell(width, x, yy, i);
      RowMajorUnique(width, x, yy, p.x, p.y);
    }
    if p.x == x && Min(y1, y2) <= p.y <= Max(y1, y2) {
      assert ColumnCell(width, x, p.y, i);
    }
  }

  /** Within the grid, a room whose columns lie inside the row carves exactly
      the points with x in (x1, x2] and y in (y1, y2]. */
  lemma {:induction false} RoomCells(width: int, height: int, room: Rect, p: Point)
    requires 0 <= room.x1 && room.x2 < width
    requires InBounds(width, height, p)
    ensures InRoom(width, room, XyIdx(width, p.x, p.y))
      <==> room.x1 < p.x <= room.x2 && room.y1 < p.y <= room.y2
  {
    var i := XyIdx(width, p.x, p.y);
    if InRoom(width, room, i) {
      var yy :| room.y1 < yy < room.y2 + 1 && RoomCell(width, room, yy, i);
      var c := i - yy * width;
      assert yy * width + c == p.y * width + p.x;
      RowMajorUnique(width, c, yy, p.x, p.y);
    }
    if room.x1 < p.x <= room.x2 && room.y1 < p.y <= room.y2 {
      assert RoomCell(width, room, p.y, i);
    }
  }
}
