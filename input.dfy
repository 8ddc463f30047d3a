// Key handling and game set-up (src/main.rs).
module Input {
  import opened Colors
  import opened Map
  import opened Entities

  const SCREEN_WIDTH: int := 80
  const SCREEN_HEIGHT: int := 50

  /** The key codes the game reacts to; `Other` stands for every remaining code. */
  datatype KeyCode = Enter | Escape | Up | Down | Left | Right | Other

  /** A key press: its code and whether Alt was held. */
  datatype Key = Key(code: KeyCode, alt: bool)

  /** What a key press asks the game to do. */
  datatype Command = ToggleFullscreen | Exit | Move(dx: int, dy: int) | Ignore

  predicate IsArrow(c: KeyCode)
  {
    c == Up || c == Down || c == Left || c == Right
  }

  /** The arms of the key match, tried in order: Alt+Enter, Escape, the four
      arrows, and everything else. */
  function Dispatch(key: Key): (c: Command)
    ensures c == ToggleFullscreen <==> key.code == Enter && key.alt
    ensures c == Exit <==> key.code == Escape
    ensures c.Move? <==> IsArrow(key.code)
    ensures c == Ignore <==> !IsArrow(key.code) && key.code != Escape && !(key.code == Enter && key.alt)
    ensures key.code == Up ==> c == Move(0, -1)
    ensures key.code == Down ==> c == Move(0, 1)
    ensures key.code == Left ==> c == Move(-1, 0)
    ensures key.code == Right ==> c == Move(1, 0)
    ensures c.Move? ==> (c.dx == 0 || c.dy == 0) && -1 <= c.dx + c.dy <= 1 && c.dx + c.dy != 0
  {
    if key.code == Enter && key.alt then ToggleFullscreen
    else match key.code
      case Escape => Exit
      case Up => Move(0, -1)
      case Down => Move(0, 1)
      case Left => Move(-1, 0)
      case Right => Move(1, 0)
      case _ => Ignore
  }

  /** The part of the game state that key handling changes: the player's
      position and the fullscreen flag. */
  datatype State = State(x: int, y: int, fullscreen: bool)

  /** `key` can be handled in state `s`: an arrow's target lies on the map. */
  predicate CanHandle(s: State, key: Key, m: TileMap)
  {
    Dispatch(key).Move? ==> InMap(m, s.x + Dispatch(key).dx, s.y + Dispatch(key).dy)
  }

  /** The state after handling one key press. */
  function Step(s: State, key: Key, m: TileMap): (r: State)
    requires CanHandle(s, key, m)
    ensures r.fullscreen != s.fullscreen <==> key.code == Enter && key.alt
    ensures !IsArrow(key.code) ==> (r.x, r.y) == (s.x, s.y)
    ensures IsArrow(key.code) ==> (r.x, r.y) == Moved(s.x, s.y, Dispatch(key).dx, Dispatch(key).dy, m)
  {
    match Dispatch(key)
    case ToggleFullscreen => s.(fullscreen := !s.fullscreen)
    case Move(dx, dy) => var (x, y) := Moved(s.x, s.y, dx, dy, m); s.(x := x, y := y)
    case _ => s
  }

  /** Acts on one key press: Alt+Enter flips fullscreen, an arrow moves the
      player by one tile, Escape asks to quit. Returns whether to quit. */
  method HandleKeys(tcod: Tcod, game: Game, player: Object, key: Key) returns (exit: bool)
    requires CanHandle(State(player.x, player.y, tcod.fullscreen), key, game.tiles)
    modifies tcod`fullscreen, player`x, player`y
    ensures exit <==> key.code == Escape
    ensures State(player.x, player.y, tcod.fullscreen) ==
              Step(State(old(player.x), old(player.y), old(tcod.fullscreen)), key, game.tiles)
  {
    exit := false;
    match Dispatch(key)
    case ToggleFullscreen =>
      tcod.fullscreen := !tcod.fullscreen;
    case Exit =>
      exit := true;
    case Move(dx, dy) =>
      player.MoveBy(dx, dy, game);
    case Ignore =>
  }

  /** Every key press up to the first Escape can be handled in turn. */
  predicate Playable(s: State, keys: seq<Key>, m: TileMap)
    decreases |keys|
  {
    || keys == []
    || keys[0].code == Escape
    || (CanHandle(s, keys[0], m) && Playable(Step(s, keys[0], m), keys[1..], m))
  }

  /** The state after the game loop has handled `keys` one per frame; the loop
      stops at the first Escape. */
  function Run(s: State, keys: seq<Key>, m: TileMap): State
    requires Playable(s, keys, m)
    decreases |keys|
  {
    if keys == [] || keys[0].code == Escape then s
    else Run(Step(s, keys[0], m), keys[1..], m)
  }

  /** A player on a walkable tile of the map stays on walkable tiles of the map
      whatever keys are pressed. */
  lemma {:induction false} RunKeepsOffBlocked(s: State, keys: seq<Key>, m: TileMap)
    requires InMap(m, s.x, s.y) && !m[s.x][s.y].blocked
    requires Playable(s, keys, m)
    ensures var r := Run(s, keys, m); InMap(m, r.x, r.y) && !m[r.x][r.y].blocked
    decreases |keys|
  {
    if keys != [] && keys[0].code != Escape {
      var k := keys[0];
      if IsArrow(k.code) {
        MoveKeepsOffBlocked(s.x, s.y, Dispatch(k).dx, Dispatch(k).dy, m);
      }
      RunKeepsOffBlocked(Step(s, k, m), keys[1..], m);
    }
  }

  /** Keys pressed after Escape have no effect: the loop has already ended. */
  lemma {:induction false} RunStopsAtEscape(s: State, keys: seq<Key>, esc: Key, rest: seq<Key>, m: TileMap)
    requires esc.code == Escape
    requires Playable(s, keys + [esc] + rest, m)
    ensures Playable(s, keys + [esc], m)
    ensures Run(s, keys + [esc] + rest, m) == Run(s, keys + [esc], m)
    decreases |keys|
  {
    if keys == [] {
      assert (keys + [esc] + rest)[0] == esc && (keys + [esc])[0] == esc;
    } else {
      var k := keys[0];
      assert (keys + [esc] + rest)[0] == k && (keys + [esc])[0] == k;
      if k.code != Escape {
        assert (keys + [esc] + rest)[1..] == keys[1..] + [esc] + rest;
        assert (keys + [esc])[1..] == keys[1..] + [esc];
        RunStopsAtEscape(Step(s, k, m), keys[1..], esc, rest, m);
      }
    }
  }

  /** Pressing an arrow that points into a blocked tile any number of times
      leaves the player where it was. */
  lemma {:induction false} RepeatedBlockedArrow(s: State, k: Key, n: nat, m: TileMap)
    requires IsArrow(k.code)
    requires CanHandle(s, k, m) && m[s.x + Dispatch(k).dx][s.y + Dispatch(k).dy].blocked
    ensures Playable(s, seq(n, _ => k), m)
    ensures var r := Run(s, seq(n, _ => k), m); (r.x, r.y) == (s.x, s.y)
  {
    if n > 0 {
      var keys := seq(n, _ => k);
      assert keys[0] == k && keys[1..] == seq(n - 1, _ => k);
      var s' := Step(s, k, m);
      assert (s'.x, s'.y) == (s.x, s.y);
      RepeatedBlockedArrow(s', k, n - 1, m);
    }
  }

  /** The start of a session: the console, the player and one NPC in that order,
      and the game's map. */
  method NewGame() returns (tcod: Tcod, objects: seq<Object>, game: Game)
    ensures tcod.Valid() && fresh(tcod) && fresh(tcod.con) && !tcod.fullscreen
    ensures |objects| == 2 && fresh(objects[0]) && fresh(objects[1]) && objects[0] != objects[1]
    ensures objects[0].Drawn() == Draw(25, 23, '@', WHITE)
    ensures objects[1].Drawn() == Draw(SCREEN_WIDTH / 2, SCREEN_HEIGHT / 2, '@', YELLOW)
    ensures IsGameMap(game.tiles)
  {
    tcod := new Tcod();
    var player := new Object(25, 23, '@', WHITE);
    var npc := new Object(SCREEN_WIDTH / 2, SCREEN_HEIGHT / 2, '@', YELLOW);
    objects := [player, npc];
    var tiles := MakeMap();
    game := Game(tiles);
  }

  /** The player starts at (25, 23) on the game's map and, whatever keys are
      pressed, never stands on either wall. */
  lemma PlayerNeverEntersWall(m: TileMap, keys: seq<Key>)
    requires IsGameMap(m)
    requires Playable(State(25, 23, false), keys, m)
    ensures var r := Run(State(25, 23, false), keys, m);
              InMap(m, r.x, r.y) && !m[r.x][r.y].blocked && !IsWallCell(r.x, r.y)
  {
    RunKeepsOffBlocked(State(25, 23, false), keys, m);
  }

  /** Right arrow next to the wall at (30, 22) leaves the player where it was,
      one row lower it moves the player onto (30, 23). */
  lemma RightArrowAtWall(m: TileMap)
    requires IsGameMap(m)
    ensures Dispatch(Key(Right, false)) == Move(1, 0)
    ensures Moved(29, 22, 1, 0, m) == (29, 22)
    ensures Moved(29, 23, 1, 0, m) == (30, 23)
  {
  }

  /** Left arrow at the left edge asks for column -1, which no map has: the
      key cannot be handled there, so `HandleKeys` and `Step` exclude it. */
  lemma LeftArrowAtEdgeLeavesMap(m: TileMap, y: int)
    ensures Dispatch(Key(Left, false)) == Move(-1, 0)
    ensures forall f: bool, alt: bool :: !CanHandle(State(0, y, f), Key(Left, alt), m)
  {
  }
}
