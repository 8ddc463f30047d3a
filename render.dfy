// The render pass of src/map/mod.rs: objects first, then a background colour
// for every cell of the map's viewport. It lives apart from module Map because
// it needs the objects and the console handles, which themselves need the map.
module Render {
  import opened Colors
  import opened Map
  import opened Entities

  /** Draws `objects` in order, then gives every cell (x, y) of the viewport the
      background its tile calls for. Returns the object draws in the order they
      happen; the console's background grid is updated in place. */
  method RenderAll(tcod: Tcod, game: Game, objects: seq<Object>) returns (draws: seq<Draw>)
    requires tcod.Valid()
    requires Covers(game.tiles, MAP_WIDTH, MAP_HEIGHT)
    modifies tcod.con
    ensures |draws| == |objects|
    ensures forall i :: 0 <= i < |objects| ==> draws[i] == objects[i].Drawn()
    ensures forall x, y :: 0 <= x < MAP_WIDTH && 0 <= y < MAP_HEIGHT ==>
              tcod.con[x, y] == Background(game.tiles[x][y])
  {
    draws := [];
    for i := 0 to |objects|
      invariant |draws| == i
      invariant forall k :: 0 <= k < i ==> draws[k] == objects[k].Drawn()
    {
      draws := draws + [objects[i].Drawn()];
    }

    var con := tcod.con;
    for y := 0 to MAP_HEIGHT
      invariant forall x', y' :: 0 <= x' < MAP_WIDTH && 0 <= y' < y ==>
                  con[x', y'] == Background(game.tiles[x'][y'])
    {
      for x := 0 to MAP_WIDTH
        invariant forall x', y' :: 0 <= x' < MAP_WIDTH && 0 <= y' < y ==>
                    con[x', y'] == Background(game.tiles[x'][y'])
        invariant forall x' :: 0 <= x' < x ==> con[x', y] == Background(game.tiles[x'][y])
      {
        var wall := game.tiles[x][y].blockSight;
        if wall {
          con[x, y] := COLOR_DARK_WALL;
        } else {
          con[x, y] := COLOR_DARK_GROUND;
        }
      }
    }
  }
}
