// The on-screen objects and the console handles of the game (src/main.rs).
module Entities {
  import opened Colors
  import opened Map

  /** What drawing one object puts on the console: its glyph, in its colour, at its position. */
  datatype Draw = Draw(x: int, y: int, glyph: char, color: Color)

  /** Where an object at (x, y) ends up after trying to move by (dx, dy):
      on the target tile when that tile is not blocked, where it was otherwise. */
  function Moved(x: int, y: int, dx: int, dy: int, m: TileMap): (p: (int, int))
    requires InMap(m, x + dx, y + dy)
    ensures p == (x, y) || p == (x + dx, y + dy)
    ensures !m[x + dx][y + dy].blocked ==> p == (x + dx, y + dy)
    ensures p == (x, y) || !m[p.0][p.1].blocked
  {
    if !m[x + dx][y + dy].blocked then (x + dx, y + dy) else (x, y)
  }

  /** A blocked move leaves the position unchanged, so repeating it changes
      nothing either (see Input.RepeatedBlockedArrow for n presses). */
  lemma BlockedMoveIdempotent(x: int, y: int, dx: int, dy: int, m: TileMap)
    requires InMap(m, x + dx, y + dy) && m[x + dx][y + dy].blocked
    ensures Moved(x, y, dx, dy, m) == (x, y)
  {
  }

  /** An object that stands on a walkable tile still stands on one after any move. */
  lemma MoveKeepsOffBlocked(x: int, y: int, dx: int, dy: int, m: TileMap)
    requires InMap(m, x, y) && !m[x][y].blocked
    requires InMap(m, x + dx, y + dy)
    ensures var (x', y') := Moved(x, y, dx, dy, m); InMap(m, x', y') && !m[x'][y'].blocked
  {
  }

  /** Anything drawn on the screen with a character. */
  class Object {
    var x: int
    var y: int
    var glyph: char
    var color: Color

    constructor (x: int, y: int, glyph: char, color: Color)
      ensures this.x == x && this.y == y && this.glyph == glyph && this.color == color
    {
      this.x := x;
      this.y := y;
      this.glyph := glyph;
      this.color := color;
    }

    /** Moves by (dx, dy) unless the target tile is blocked. The map is indexed
        at the target without any bounds check, so the target must lie on it. */
    method MoveBy(dx: int, dy: int, game: Game)
      requires InMap(game.tiles, x + dx, y + dy)
      modifies this`x, this`y
      ensures (x, y) == Moved(old(x), old(y), dx, dy, game.tiles)
    {
      if !game.tiles[x + dx][y + dy].blocked {
        x := x + dx;
        y := y + dy;
      }
    }

    /** What `draw` puts on the console for this object. */
    function Drawn(): Draw
      reads this
    {
      Draw(x, y, glyph, color)
    }
  }

  /** The console state the game logic touches: the fullscreen flag of the root
      window and the backgrounds of the offscreen console the map is drawn on. */
  class Tcod {
    var fullscreen: bool
    const con: array2<Color>

    ghost predicate Valid()
    {
      con.Length0 == MAP_WIDTH && con.Length1 == MAP_HEIGHT
    }

    constructor ()
      ensures Valid() && fresh(con) && !fullscreen
      ensures forall x, y :: 0 <= x < MAP_WIDTH && 0 <= y < MAP_HEIGHT ==> con[x, y] == BLACK
    {
      fullscreen := false;
      con := new Color[MAP_WIDTH, MAP_HEIGHT]((_, _) => BLACK);
    }
  }
}
