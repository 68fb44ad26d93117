/** src/systems/visibility_system.rs: dirty viewsheds are recomputed from the
    field of view, and a recomputed player view rebuilds the map's visible
    flags, reveals what it sees and marks everything standing there as
    visible. The field of view itself (rltk::field_of_view over the current
    map) is the parameter `fov`. */
module VisibilitySystem {
  import opened Components
  import opened Seqs
  import opened GameMap
  import opened Ecs

  /** Vec::retain with Map::in_bounds: the points of `tiles` on the map, in
      their order. */
  function InBoundsOnly(tiles: seq<Point>, width: int, height: int): (r: seq<Point>)
    ensures forall p :: p in r <==> p in tiles && InBounds(width, height, p)
    ensures |r| <= |tiles|
  {
    if tiles == [] then []
    else
      var p := tiles[|tiles| - 1];
      InBoundsOnly(tiles[..|tiles| - 1], width, height) + if InBounds(width, height, p) then [p] else []
  }

  /** A recomputed viewshed: clean, same range, the in-bounds part of the
      field of view from the entity's position. */
  function Recomputed(vs: Viewshed, pos: Point, fov: (Point, int) -> seq<Point>, width: int, height: int): Viewshed {
    Viewshed(InBoundsOnly(fov(pos, vs.range), width, height), vs.range, false)
  }

  /** The cell indices of a list of points. */
  function Cells(tiles: seq<Point>, width: int): set<int> {
    set p | p in tiles :: XyIdx(width, p.x, p.y)
  }

  /** The entities that tile_content lists in the given cells. */
  function Occupants(tileContent: seq<seq<Entity>>, cells: set<int>): set<Entity> {
    set i, k | i in cells && 0 <= i < |tileContent| && 0 <= k < |tileContent[i]| :: tileContent[i][k]
  }

  /** The map flags and the IsVisible storage the player's view rebuilds. */
  datatype Sight = Sight(visible: seq<bool>, revealed: seq<bool>, isVisible: set<Entity>)

  /** The player sees the cells of `tiles` and nothing else, has revealed
      them besides what was revealed before, and IsVisible holds everything
      standing in them. */
  function PlayerSight(s: Sight, tiles: seq<Point>, width: int, tileContent: seq<seq<Entity>>): (r: Sight)
    ensures |r.visible| == |s.visible| && |r.revealed| == |s.revealed|
  {
    var cells := Cells(tiles, width);
    Sight(seq(|s.visible|, i => i in cells), seq(|s.revealed|, i requires 0 <= i < |s.revealed| => s.revealed[i] || i in cells),
          Occupants(tileContent, cells))
  }

  /** What the system writes: the viewsheds and the player's sight. */
  datatype SightState = SightState(viewsheds: map<Entity, Viewshed>, sight: Sight)

  /** One iteration of the loop, for entity e standing at pos. */
  function Step(s: SightState, e: Entity, pos: Point, isPlayer: bool, fov: (Point, int) -> seq<Point>,
                width: int, height: int, tileContent: seq<seq<Entity>>): (r: SightState)
    requires e in s.viewsheds
    ensures r.viewsheds.Keys == s.viewsheds.Keys
    ensures |r.sight.visible| == |s.sight.visible| && |r.sight.revealed| == |s.sight.revealed|
  {
    if !s.viewsheds[e].dirty then s
    else
      var vs := Recomputed(s.viewsheds[e], pos, fov, width, height);
      SightState(s.viewsheds[e := vs], if isPlayer then PlayerSight(s.sight, vs.visibleTiles, width, tileContent) else s.sight)
  }

  /** The state after the entities of `order` were visited in that order. */
  function Sighted(s: SightState, order: seq<Entity>, positions: map<Entity, Point>, players: set<Entity>,
                   fov: (Point, int) -> seq<Point>, width: int, height: int, tileContent: seq<seq<Entity>>): (r: SightState)
    requires forall e :: e in order ==> e in s.viewsheds && e in positions
    ensures r.viewsheds.Keys == s.viewsheds.Keys
    ensures |r.sight.visible| == |s.sight.visible| && |r.sight.revealed| == |s.sight.revealed|
  {
    if order == [] then s
    else
      var e := order[|order| - 1];
      Step(Sighted(s, order[..|order| - 1], positions, players, fov, width, height, tileContent),
           e, positions[e], e in players, fov, width, height, tileContent)
  }

  /** A clean viewshed is left alone. A dirty one becomes clean, keeps its
      range and holds exactly the in-bounds points of the field of view. A
      non-player's recompute leaves visible[], revealed[] and IsVisible as
      they were. After the player's, cell i is visible exactly when a point
      of the new view has index i, it is revealed when it was before or is
      visible now, and IsVisible is held by exactly the entities standing in
      a cell of the new view. No other viewshed changes. */
  lemma StepProperties(s: SightState, e: Entity, pos: Point, isPlayer: bool, fov: (Point, int) -> seq<Point>,
                       width: int, height: int, tileContent: seq<seq<Entity>>)
    requires e in s.viewsheds
    ensures var r := Step(s, e, pos, isPlayer, fov, width, height, tileContent);
      && (forall x :: x in s.viewsheds && x != e ==> r.viewsheds[x] == s.viewsheds[x])
      && (!s.viewsheds[e].dirty ==> r == s)
      && (s.viewsheds[e].dirty ==>
            && !r.viewsheds[e].dirty && r.viewsheds[e].range == s.viewsheds[e].range
            && (forall p :: p in r.viewsheds[e].visibleTiles <==> p in fov(pos, s.viewsheds[e].range) && InBounds(width, height, p)))
      && (!isPlayer ==> r.sight == s.sight)
      && (s.viewsheds[e].dirty && isPlayer ==>
            var tiles := r.viewsheds[e].visibleTiles;
            && (forall i :: 0 <= i < |r.sight.visible| ==>
                  (r.sight.visible[i] <==> exists p :: p in tiles && XyIdx(width, p.x, p.y) == i))
            && (forall i :: 0 <= i < |r.sight.revealed| ==>
                  (r.sight.revealed[i] <==> s.sight.revealed[i] || exists p :: p in tiles && XyIdx(width, p.x, p.y) == i))
            && (forall x :: x in r.sight.isVisible <==>
                  exists p :: p in tiles && 0 <= XyIdx(width, p.x, p.y) < |tileContent|
                    && x in tileContent[XyIdx(width, p.x, p.y)]))
  {
    if s.viewsheds[e].dirty && isPlayer {
      var r := Step(s, e, pos, isPlayer, fov, width, height, tileContent);
      var tiles := r.viewsheds[e].visibleTiles;
      var cells := Cells(tiles, width);
      forall x ensures x in r.sight.isVisible <==>
        exists p :: p in tiles && 0 <= XyIdx(width, p.x, p.y) < |tileContent| && x in tileContent[XyIdx(width, p.x, p.y)]
      {
        if x in r.sight.isVisible {
          var i, k :| i in cells && 0 <= i < |tileContent| && 0 <= k < |tileContent[i]| && tileContent[i][k] == x;
          var p :| p in tiles && XyIdx(width, p.x, p.y) == i;
          assert x in tileContent[XyIdx(width, p.x, p.y)];
        }
        if exists p :: p in tiles && 0 <= XyIdx(width, p.x, p.y) < |tileContent| && x in tileContent[XyIdx(width, p.x, p.y)] {
          var p :| p in tiles && 0 <= XyIdx(width, p.x, p.y) < |tileContent| && x in tileContent[XyIdx(width, p.x, p.y)];
          var i := XyIdx(width, p.x, p.y);
          var k :| 0 <= k < |tileContent[i]| && tileContent[i][k] == x;
          assert i in cells;
        }
      }
    }
  }

  /** After a run every visited viewshed is clean, every dirty one visited
      is the recomputed view from the entity's position (so it lies in
      bounds), and every other viewshed is unchanged. */
  lemma {:induction false} SightedViewsheds(s: SightState, order: seq<Entity>, positions: map<Entity, Point>, players: set<Entity>,
                                            fov: (Point, int) -> seq<Point>, width: int, height: int, tileContent: seq<seq<Entity>>)
    requires Distinct(order)
    requires forall e :: e in order ==> e in s.viewsheds && e in positions
    ensures var r := Sighted(s, order, positions, players, fov, width, height, tileContent);
      && (forall e :: e in order ==> !r.viewsheds[e].dirty)
      && (forall e :: e in s.viewsheds && (e !in order || !s.viewsheds[e].dirty) ==> r.viewsheds[e] == s.viewsheds[e])
      && (forall e :: e in order && s.viewsheds[e].dirty ==>
            r.viewsheds[e] == Recomputed(s.viewsheds[e], positions[e], fov, width, height))
  {
    if order != [] {
      var init, e := order[..|order| - 1], order[|order| - 1];
      assert Distinct(init);
      assert forall x :: x in order <==> x in init || x == e;
      assert e !in init;
      SightedViewsheds(s, init, positions, players, fov, width, height, tileContent);
      var prev := Sighted(s, init, positions, players, fov, width, height, tileContent);
      StepProperties(prev, e, positions[e], e in players, fov, width, height, tileContent);
    }
  }

  /** revealed[] only ever gains cells. */
  lemma {:induction false} SightedRevealedGrows(s: SightState, order: seq<Entity>, positions: map<Entity, Point>, players: set<Entity>,
                                                fov: (Point, int) -> seq<Point>, width: int, height: int, tileContent: seq<seq<Entity>>)
    requires forall e :: e in order ==> e in s.viewsheds && e in positions
    ensures var r := Sighted(s, order, positions, players, fov, width, height, tileContent);
      forall i :: 0 <= i < |s.sight.revealed| && s.sight.revealed[i] ==> r.sight.revealed[i]
  {
    if order != [] {
      var init, e := order[..|order| - 1], order[|order| - 1];
      assert forall x :: x in init ==> x in order;
      SightedRevealedGrows(s, init, positions, players, fov, width, height, tileContent);
      var prev := Sighted(s, init, positions, players, fov, width, height, tileContent);
      StepProperties(prev, e, positions[e], e in players, fov, width, height, tileContent);
    }
  }

  /** Every visible cell is revealed. */
  predicate SeenIsRevealed(s: Sight) {
    |s.visible| == |s.revealed| && forall i :: 0 <= i < |s.visible| && s.visible[i] ==> s.revealed[i]
  }

  /** The system keeps every visible cell revealed. */
  lemma {:induction false} SightedVisibleIsRevealed(s: SightState, order: seq<Entity>, positions: map<Entity, Point>, players: set<Entity>,
                                                    fov: (Point, int) -> seq<Point>, width: int, height: int, tileContent: seq<seq<Entity>>)
    requires forall e :: e in order ==> e in s.viewsheds && e in positions
    requires SeenIsRevealed(s.sight)
    ensures SeenIsRevealed(Sighted(s, order, positions, players, fov, width, height, tileContent).sight)
  {
    if order != [] {
      var init, e := order[..|order| - 1], order[|order| - 1];
      assert forall x :: x in init ==> x in order;
      SightedVisibleIsRevealed(s, init, positions, players, fov, width, height, tileContent);
      var prev := Sighted(s, init, positions, players, fov, width, height, tileContent);
      StepProperties(prev, e, positions[e], e in players, fov, width, height, tileContent);
      var r := Step(prev, e, positions[e], e in players, fov, width, height, tileContent);
      if prev.viewsheds[e].dirty && e in players {
        forall i | 0 <= i < |r.sight.visible| && r.sight.visible[i] ensures r.sight.revealed[i] {
          assert exists p :: p in r.viewsheds[e].visibleTiles && XyIdx(width, p.x, p.y) == i;
        }
      }
    }
  }

  /** Without a dirty player view in the run, visible[], revealed[] and
      IsVisible are not touched. */
  lemma {:induction false} SightedWithoutPlayer(s: SightState, order: seq<Entity>, positions: map<Entity, Point>, players: set<Entity>,
                                                fov: (Point, int) -> seq<Point>, width: int, height: int, tileContent: seq<seq<Entity>>)
    requires Distinct(order)
    requires forall e :: e in order ==> e in s.viewsheds && e in positions
    requires forall e :: e in order && e in players ==> !s.viewsheds[e].dirty
    ensures Sighted(s, order, positions, players, fov, width, height, tileContent).sight == s.sight
  {
    if order != [] {
      var init, e := order[..|order| - 1], order[|order| - 1];
      assert Distinct(init);
      assert forall x :: x in init ==> x in order;
      assert e !in init;
      SightedWithoutPlayer(s, init, positions, players, fov, width, height, tileContent);
      SightedViewsheds(s, init, positions, players, fov, width, height, tileContent);
      var prev := Sighted(s, init, positions, players, fov, width, height, tileContent);
      assert prev.viewsheds[e] == s.viewsheds[e];
      StepProperties(prev, e, positions[e], e in players, fov, width, height, tileContent);
    }
  }

  /** The loop that clears map.visible_tiles. */
  method ClearFlags(flags0: seq<bool>) returns (flags: seq<bool>)
    ensures |flags| == |flags0| && forall i :: 0 <= i < |flags| ==> !flags[i]
  {
    flags := flags0;
    var i := 0;
    while i < |flags|
      invariant 0 <= i <= |flags| == |flags0|
      invariant forall j :: 0 <= j < i ==> !flags[j]
    {
      flags := flags[i := false];
      i := i + 1;
    }
  }

  /** The innermost loop: IsVisible inserted for each entity of a cell. */
  method InsertAll(isVisible0: set<Entity>, content: seq<Entity>) returns (isVisible: set<Entity>)
    ensures isVisible == isVisible0 + Elems(content)
  {
    isVisible := isVisible0;
    var k := 0;
    while k < |content|
      invariant 0 <= k <= |content|
      invariant isVisible == isVisible0 + Elems(content[..k])
    {
      assert Elems(content[..k + 1]) == Elems(content[..k]) + {content[k]} by {
        assert content[..k + 1] == content[..k] + [content[k]];
      }
      isVisible := isVisible + {content[k]};
      k := k + 1;
    }
    assert content[..k] == content;
  }

  /** Lighting one more cell adds what stands in it. */
  lemma OccupantsAdd(tileContent: seq<seq<Entity>>, cells: set<int>, i: int)
    requires 0 <= i < |tileContent|
    ensures Occupants(tileContent, cells + {i}) == Occupants(tileContent, cells) + Elems(tileContent[i])
  {
    forall x | x in Elems(tileContent[i]) ensures x in Occupants(tileContent, cells + {i}) {
      var k :| 0 <= k < |tileContent[i]| && tileContent[i][k] == x;
    }
  }

  /** The loop over the player's new view: each of its cells is revealed
      and lit, and what stands there becomes visible. */
  method ShowTiles(s0: Sight, tiles: seq<Point>, width: int, height: int, tileContent: seq<seq<Entity>>) returns (s: Sight)
    requires 0 <= width * height && |s0.visible| == |s0.revealed| == |tileContent| == width * height
    requires forall j :: 0 <= j < |s0.visible| ==> !s0.visible[j]
    requires s0.isVisible == {}
    requires forall p :: p in tiles ==> InBounds(width, height, p)
    ensures s == PlayerSight(s0, tiles, width, tileContent)
  {
    s := s0;
    var n := width * height;
    var k := 0;
    while k < |tiles|
      invariant 0 <= k <= |tiles|
      invariant |s.visible| == n && |s.revealed| == n
      invariant forall i :: 0 <= i < n ==> s.visible[i] == (i in Cells(tiles[..k], width))
      invariant forall i :: 0 <= i < n ==> s.revealed[i] == (s0.revealed[i] || i in Cells(tiles[..k], width))
      invariant s.isVisible == Occupants(tileContent, Cells(tiles[..k], width))
    {
      var p := tiles[k];
      InBoundsIsValid(width, height, p.x, p.y);
      var idx := XyIdx(width, p.x, p.y);
      assert Cells(tiles[..k + 1], width) == Cells(tiles[..k], width) + {idx} by {
        assert tiles[..k + 1] == tiles[..k] + [p];
      }
      OccupantsAdd(tileContent, Cells(tiles[..k], width), idx);
      var revealed := s.revealed[idx := true];
      var visible := s.visible[idx := true];
      var isVisible := InsertAll(s.isVisible, tileContent[idx]);
      s := Sight(visible, revealed, isVisible);
      k := k + 1;
    }
    assert tiles[..k] == tiles;
  }

  /** The player branch: visible[] cleared, IsVisible cleared, then the new
      view shown. */
  method UpdatePlayerSight(s0: Sight, tiles: seq<Point>, width: int, height: int, tileContent: seq<seq<Entity>>) returns (s: Sight)
    requires 0 <= width * height && |s0.visible| == |s0.revealed| == |tileContent| == width * height
    requires forall p :: p in tiles ==> InBounds(width, height, p)
    ensures s == PlayerSight(s0, tiles, width, tileContent)
  {
    var visible := ClearFlags(s0.visible);
    s := ShowTiles(Sight(visible, s0.revealed, {}), tiles, width, height, tileContent);
  }

  /** The body of the loop for one entity. */
  method SightOne(s: SightState, e: Entity, pos: Point, isPlayer: bool, fov: (Point, int) -> seq<Point>,
                  width: int, height: int, tileContent: seq<seq<Entity>>) returns (r: SightState)
    requires e in s.viewsheds
    requires 0 <= width * height && |s.sight.visible| == |s.sight.revealed| == |tileContent| == width * height
    ensures r == Step(s, e, pos, isPlayer, fov, width, height, tileContent)
  {
    r := s;
    var viewshed := s.viewsheds[e];
    if viewshed.dirty {
      var tiles := InBoundsOnly(fov(pos, viewshed.range), width, height);
      viewshed := Viewshed(tiles, viewshed.range, false);
      var sight := s.sight;
      if isPlayer {
        sight := UpdatePlayerSight(sight, tiles, width, height, tileContent);
      }
      r := SightState(s.viewsheds[e := viewshed], sight);
    }
  }

  /** The loop of the system over the join order. */
  method SightAll(s0: SightState, order: seq<Entity>, positions: map<Entity, Point>, players: set<Entity>,
                  fov: (Point, int) -> seq<Point>, width: int, height: int, tileContent: seq<seq<Entity>>) returns (r: SightState)
    requires forall e :: e in order ==> e in s0.viewsheds && e in positions
    requires 0 <= width * height && |s0.sight.visible| == |s0.sight.revealed| == |tileContent| == width * height
    ensures r == Sighted(s0, order, positions, players, fov, width, height, tileContent)
  {
    r := s0;
    var i := 0;
    while i < |order|
      invariant 0 <= i <= |order|
      invariant r == Sighted(s0, order[..i], positions, players, fov, width, height, tileContent)
    {
      var e := order[i];
      assert e in order;
      assert order[..i + 1][..i] == order[..i];
      r := SightOne(r, e, positions[e], e in players, fov, width, height, tileContent);
      i := i + 1;
    }
    assert order[..i] == order;
  }

  /** Inserting IsVisible panics on an entity that is no longer alive: every
      entity standing in a cell of a recomputed player view must be live. A
      viewshed is visited once, so its view is computed from its viewshed
      before the run. */
  predicate SightOk(alive: set<Entity>, order: seq<Entity>, viewsheds: map<Entity, Viewshed>, positions: map<Entity, Point>,
                    players: set<Entity>, fov: (Point, int) -> seq<Point>, width: int, height: int, tileContent: seq<seq<Entity>>)
    requires forall e :: e in order ==> e in viewsheds && e in positions
  {
    forall e :: e in order && e in players && viewsheds[e].dirty ==>
      Occupants(tileContent, Cells(Recomputed(viewsheds[e], positions[e], fov, width, height).visibleTiles, width)) <= alive
  }

  /** VisibilitySystem::run over every live entity with a Viewshed and a
      Position. */
  method Run(w: World, fov: (Point, int) -> seq<Point>)
    requires w.Valid()
    requires SightOk(Elems(w.alive), Join(w.alive, w.viewsheds.Keys * w.positions.Keys), w.viewsheds, w.positions, w.players,
                     fov, w.grid.width, w.grid.height, w.grid.tileContent)
    modifies w`viewsheds, w`isVisible, w.grid`visible, w.grid`revealed
    ensures w.Valid()
    ensures SightState(w.viewsheds, Sight(w.grid.visible, w.grid.revealed, w.isVisible))
      == old(Sighted(SightState(w.viewsheds, Sight(w.grid.visible, w.grid.revealed, w.isVisible)),
                     Join(w.alive, w.viewsheds.Keys * w.positions.Keys), w.positions, w.players,
                     fov, w.grid.width, w.grid.height, w.grid.tileContent))
  {
    var s0 := SightState(w.viewsheds, Sight(w.grid.visible, w.grid.revealed, w.isVisible));
    var order := Join(w.alive, w.viewsheds.Keys * w.positions.Keys);
    var r := SightAll(s0, order, w.positions, w.players, fov, w.grid.width, w.grid.height, w.grid.tileContent);
    w.viewsheds, w.isVisible := r.viewsheds, r.sight.isVisible;
    w.grid.visible, w.grid.revealed := r.sight.visible, r.sight.revealed;
    assert w.grid.Valid() && w.log.Valid() && Distinct(w.alive);
  }
}
