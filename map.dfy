// Tiles, the tile map and the hard-coded map of the game, together with the
// colour that the render pass gives each tile (src/map/mod.rs).
module Map {
  import opened Colors

  const MAP_WIDTH: int := 80
  const MAP_HEIGHT: int := 45

  const COLOR_DARK_WALL: Color := Color(0, 0, 100)
  const COLOR_DARK_GROUND: Color := Color(50, 50, 15)

  /** A map cell: `blocked` stops movement, `blockSight` stops the line of sight. */
  datatype Tile = Tile(blocked: bool, blockSight: bool)
  {
    /** A floor tile: walkable and see-through. */
    static function Empty(): (t: Tile)
      ensures !t.blocked && !t.blockSight
    {
      Tile(false, false)
    }

    /** A wall tile: neither walkable nor see-through. */
    static function Wall(): (t: Tile)
      ensures t.blocked && t.blockSight
    {
      Tile(true, true)
    }
  }

  /** Columns of tiles: the tile at (x, y) is `m[x][y]`. */
  type TileMap = seq<seq<Tile>>

  /** The game state shared by movement and rendering: only the map. */
  datatype Game = Game(tiles: TileMap)

  /** `m[x][y]` can be indexed, i.e. the lookup does not panic. */
  predicate InMap(m: TileMap, x: int, y: int)
  {
    0 <= x < |m| && 0 <= y < |m[x]|
  }

  /** Every (x, y) with 0 <= x < w and 0 <= y < h can be indexed in `m`. */
  predicate Covers(m: TileMap, w: int, h: int)
  {
    w <= |m| && forall x :: 0 <= x < w ==> h <= |m[x]|
  }

  /** The two cells that the game's map walls off. */
  predicate IsWallCell(x: int, y: int)
  {
    (x == 30 && y == 22) || (x == 50 && y == 22)
  }

  /** The shape of the game's map: MAP_WIDTH columns of MAP_HEIGHT tiles each,
      walls exactly at the two wall cells and empty tiles everywhere else. */
  ghost predicate IsGameMap(m: TileMap)
  {
    && |m| == MAP_WIDTH
    && (forall x :: 0 <= x < |m| ==> |m[x]| == MAP_HEIGHT)
    && forall x, y :: 0 <= x < MAP_WIDTH && 0 <= y < MAP_HEIGHT ==>
         m[x][y] == if IsWallCell(x, y) then Tile.Wall() else Tile.Empty()
  }

  /** Builds the map: all empty, then two tiles overwritten by walls. */
  method MakeMap() returns (m: TileMap)
    ensures IsGameMap(m)
    ensures Covers(m, MAP_WIDTH, MAP_HEIGHT)
  {
    m := seq(MAP_WIDTH, _ => seq(MAP_HEIGHT, _ => Tile.Empty()));
    m := m[30 := m[30][22 := Tile.Wall()]];
    m := m[50 := m[50][22 := Tile.Wall()]];
  }

  /** The cells of `m` that movement cannot enter. */
  function BlockedCells(m: TileMap): set<(int, int)>
  {
    set x, y | 0 <= x < |m| && 0 <= y < |m[x]| && m[x][y].blocked :: (x, y)
  }

  /** The game's map blocks movement at exactly the two wall cells. */
  lemma GameMapBlockedCells(m: TileMap)
    requires IsGameMap(m)
    ensures BlockedCells(m) == {(30, 22), (50, 22)}
  {
  }

  /** Every tile of the game's map blocks sight exactly when it blocks movement. */
  lemma GameMapSightMatchesBlocked(m: TileMap, x: int, y: int)
    requires IsGameMap(m) && InMap(m, x, y)
    ensures m[x][y].blocked == m[x][y].blockSight
  {
  }

  /** The background colour of a tile: the wall colour for a tile that blocks
      sight, the ground colour otherwise. */
  function Background(t: Tile): (c: Color)
    ensures c == COLOR_DARK_WALL <==> t.blockSight
    ensures c == COLOR_DARK_GROUND <==> !t.blockSight
  {
    if t.blockSight then COLOR_DARK_WALL else COLOR_DARK_GROUND
  }

  /** The background depends on `blockSight` alone, never on `blocked`. */
  lemma BackgroundIgnoresBlocked(t: Tile, u: Tile)
    requires t.blockSight == u.blockSight
    ensures Background(t) == Background(u)
  {
  }

  /** The cells of the viewport that the render pass paints in the wall colour. */
  function WallColouredCells(m: TileMap): set<(int, int)>
    requires Covers(m, MAP_WIDTH, MAP_HEIGHT)
  {
    set x, y | 0 <= x < MAP_WIDTH && 0 <= y < MAP_HEIGHT && Background(m[x][y]) == COLOR_DARK_WALL :: (x, y)
  }

  /** On the game's map exactly the two wall cells are drawn in the wall colour. */
  lemma GameMapWallColouredCells(m: TileMap)
    requires IsGameMap(m)
    ensures Covers(m, MAP_WIDTH, MAP_HEIGHT)
    ensures WallColouredCells(m) == {(30, 22), (50, 22)}
  {
  }
}
