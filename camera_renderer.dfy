/** The arithmetic of src/gui/camera_renderer.rs: the window of map
    coordinates the camera shows around the player, and the box-drawing
    glyph of a wall, chosen by which neighbouring cells are revealed walls.
    src/map.rs has no Map::is_valid; it is modelled as the index test
    Map::is_valid_idx. */
module CameraRenderer {
  import opened Components
  import opened GameMap

  /** The bounds (min_x, max_x, min_y, max_y) of the window. */
  datatype ScreenBounds = ScreenBounds(minX: int, maxX: int, minY: int, maxY: int)

  /** CameraRenderer::get_screen_bounds for a console of xChars by yChars
      characters (u32, so the halves are floor divisions). */
  function GetScreenBounds(playerPos: Point, xChars: nat, yChars: nat): (r: ScreenBounds)
    ensures r.maxX - r.minX == xChars && r.maxY - r.minY == yChars
    ensures playerPos.x - r.minX == xChars / 2 && playerPos.y - r.minY == yChars / 2
    ensures xChars > 0 ==> r.minX <= playerPos.x < r.maxX
    ensures yChars > 0 ==> r.minY <= playerPos.y < r.maxY
  {
    var centerX, centerY := xChars / 2, yChars / 2;
    var minX := playerPos.x - centerX;
    var minY := playerPos.y - centerY;
    ScreenBounds(minX, minX + xChars, minY, minY + yChars)
  }

  /** is_revealed_wall: indexing the vectors panics on an invalid index, so
      the cell must be valid (get_wall_glyph only asks about valid ones). */
  predicate IsRevealedWall(m: Map, x: int, y: int)
    reads m
    requires m.Valid() && IsValidIdx(m.width, m.height, x, y)
  {
    var idx := XyIdx(m.width, x, y);
    m.tiles[idx] == Wall && m.revealed[idx]
  }

  /** The flag a neighbour contributes to the mask: its flag when it is a
      valid, revealed wall. */
  function NeighbourFlag(m: Map, x: int, y: int, flag: int): int
    reads m
    requires m.Valid()
  {
    if IsValidIdx(m.width, m.height, x, y) && IsRevealedWall(m, x, y) then flag else 0
  }

  /** The neighbours get_wall_glyph inspects, with their flags: north 1,
      south 2, west 4, east 8. */
  function Deltas(x: int, y: int): seq<(int, int, int)> {
    [(x, y - 1, 1), (x, y + 1, 2), (x - 1, y, 4), (x + 1, y, 8)]
  }

  /** The mask after the neighbours of `deltas` were inspected. */
  function MaskOf(m: Map, deltas: seq<(int, int, int)>): int
    reads m
    requires m.Valid()
  {
    if deltas == [] then 0
    else
      var d := deltas[|deltas| - 1];
      MaskOf(m, deltas[..|deltas| - 1]) + NeighbourFlag(m, d.0, d.1, d.2)
  }

  /** Bit b of a mask. */
  function Bit(mask: int, b: nat): bool {
    (mask / Pow2(b)) % 2 == 1
  }

  function Pow2(b: nat): (r: nat)
    ensures r > 0
  {
    if b == 0 then 1 else 2 * Pow2(b - 1)
  }

  /** The mask lies in 0..15, and its bits read back the four neighbours:
      bit 0 the north, 1 the south, 2 the west and 3 the east neighbour is a
      valid, revealed wall. */
  lemma MaskDecodes(m: Map, x: int, y: int)
    requires m.Valid()
    ensures var mask := MaskOf(m, Deltas(x, y));
      && 0 <= mask <= 15
      && (Bit(mask, 0) <==> NeighbourFlag(m, x, y - 1, 1) == 1)
      && (Bit(mask, 1) <==> NeighbourFlag(m, x, y + 1, 2) == 2)
      && (Bit(mask, 2) <==> NeighbourFlag(m, x - 1, y, 4) == 4)
      && (Bit(mask, 3) <==> NeighbourFlag(m, x + 1, y, 8) == 8)
  {
    var ds := Deltas(x, y);
    assert ds[..3] == [(x, y - 1, 1), (x, y + 1, 2), (x - 1, y, 4)];
    assert ds[..3][..2] == [(x, y - 1, 1), (x, y + 1, 2)];
    assert ds[..3][..2][..1] == [(x, y - 1, 1)];
    assert ds[..3][..2][..1][..0] == [];
    var n, s, w, e := NeighbourFlag(m, x, y - 1, 1), NeighbourFlag(m, x, y + 1, 2),
                      NeighbourFlag(m, x - 1, y, 4), NeighbourFlag(m, x + 1, y, 8);
    assert MaskOf(m, ds[..3][..2][..1]) == n;
    assert MaskOf(m, ds[..3][..2]) == n + s;
    assert MaskOf(m, ds[..3]) == n + s + w;
    assert MaskOf(m, ds) == n + s + w + e;
    assert Pow2(1) == 2 && Pow2(2) == 4 && Pow2(3) == 8;
    MaskBits(n == 1, s == 2, w == 4, e == 8);
  }

  /** The four flags of a sum of distinct powers of two read back. */
  lemma MaskBits(n: bool, s: bool, w: bool, e: bool)
    ensures var mask := (if n then 1 else 0) + (if s then 2 else 0) + (if w then 4 else 0) + (if e then 8 else 0);
      && 0 <= mask <= 15
      && ((mask / 1) % 2 == 1 <==> n) && ((mask / 2) % 2 == 1 <==> s)
      && ((mask / 4) % 2 == 1 <==> w) && ((mask / 8) % 2 == 1 <==> e)
  {
  }

  /** The match of get_wall_glyph on the mask. */
  function MaskGlyph(mask: int): char {
    match mask
    case 0 => '•'
    case 1 => '║'
    case 2 => '║'
    case 3 => '║'
    case 4 => '═'
    case 5 => '╝'
    case 6 => '╗'
    case 7 => '╣'
    case 8 => '═'
    case 9 => '╚'
    case 10 => '╔'
    case 11 => '╠'
    case 12 => '═'
    case 13 => '╩'
    case 14 => '╦'
    case 15 => '╬'
    case _ => '#'
  }

  /** The glyph of the wall at (x, y): '#' off the map, else the glyph of
      its mask. */
  function WallGlyph(m: Map, x: int, y: int): char
    reads m
    requires m.Valid()
  {
    if !IsValidIdx(m.width, m.height, x, y) then '#' else MaskGlyph(MaskOf(m, Deltas(x, y)))
  }

  /** On the map the '#' fallback never shows: every mask has its glyph.
      Walls north or south only are vertical, west or east only are
      horizontal, no revealed neighbour gives a pillar and four give a
      cross. */
  lemma WallGlyphShapes(m: Map, x: int, y: int)
    requires m.Valid()
    ensures IsValidIdx(m.width, m.height, x, y) <==> WallGlyph(m, x, y) != '#'
    ensures var mask := MaskOf(m, Deltas(x, y));
      IsValidIdx(m.width, m.height, x, y) ==>
        && (mask in {1, 2, 3} ==> WallGlyph(m, x, y) == '║')
        && (mask in {4, 8, 12} ==> WallGlyph(m, x, y) == '═')
        && (mask == 0 ==> WallGlyph(m, x, y) == '•')
        && (mask == 15 ==> WallGlyph(m, x, y) == '╬')
  {
    MaskDecodes(m, x, y);
  }

  /** get_wall_glyph: the mask summed in a loop over the four neighbours. */
  method GetWallGlyph(m: Map, x: int, y: int) returns (c: char)
    requires m.Valid()
    ensures c == WallGlyph(m, x, y)
  {
    if !IsValidIdx(m.width, m.height, x, y) {
      return '#';
    }
    var deltas := Deltas(x, y);
    var mask := 0;
    var i := 0;
    while i < |deltas|
      invariant 0 <= i <= |deltas|
      invariant mask == MaskOf(m, deltas[..i])
    {
      var (deltaX, deltaY, flag) := deltas[i];
      assert deltas[..i + 1][..i] == deltas[..i];
      if IsValidIdx(m.width, m.height, deltaX, deltaY) && IsRevealedWall(m, deltaX, deltaY) {
        mask := mask + flag;
      }
      i := i + 1;
    }
    assert deltas[..i] == deltas;
    c := MaskGlyph(mask);
  }
}
