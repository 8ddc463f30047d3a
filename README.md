# Roguelike skeleton: game-state core

A model of the game-state core of a minimal tcod roguelike written in Rust.
The core has four parts:

- The tile map. Each tile carries a `blocked` flag and a `block_sight` flag. The
  map is a grid of 80 columns of 45 tiles, indexed `[x][y]`. `make_map` builds
  it with walls at exactly (30, 22) and (50, 22).
- Movement. `Object::move_by` moves an object by (dx, dy) unless the target tile
  is blocked.
- Key handling. Alt+Enter flips fullscreen, the arrows move the player by one
  tile, Escape asks the game to quit, and every other key does nothing. The
  main loop handles one key per frame and stops at Escape.
- The render pass. It draws the objects in order. Then it gives every cell of
  the 80×45 viewport a background colour chosen only by that tile's
  `block_sight`.

Layout:

- `colors.dfy` holds the toolkit's `Color` record and the named colours the game
  uses.
- `map.dfy` (module `Map`) covers `src/map/mod.rs`: tiles, `make_map`, and the
  colour the render pass picks for each tile.
- `entities.dfy` (module `Entities`) covers `Object` and the `Tcod` handles from
  `src/main.rs`.
- `render.dfy` (module `Render`) covers `render_all` from `src/map/mod.rs`.
  It is a module of its own because `render_all` needs `Object` and `Tcod`, and
  those in turn need the map. Rust allows that cycle between modules; Dafny
  does not.
- `input.dfy` (module `Input`) covers `handle_keys` and the set-up in `main`.

Modelling choices:

- The map is a value (`seq<seq<Tile>>`) because nothing changes it after
  `make_map`.
- `Object` and `Tcod` are classes because the program updates their fields in
  place.
- The console's background grid is an `array2<Color>`. `RenderAll` fills it
  in place with the same nested `y`/`x` loops the source uses.
- `move_by` indexes the map at the target without a bounds check. An index
  outside the map panics, and a negative coordinate cast to `usize` does too.
  So `Object.MoveBy` and `HandleKeys` require the target to lie on the map. An
  out-of-bounds move is not modelled as a rejected move.

## Model

| member | source | states |
|---|---|---|
| `Map.Tile.Empty` | src/map/mod.rs:26-31 | an empty tile neither blocks movement nor blocks sight |
| `Map.Tile.Wall` | src/map/mod.rs:34-39 | a wall tile blocks both movement and sight |
| `Map.MakeMap` | src/map/mod.rs:50-59 | the map has MAP_WIDTH (80) columns of MAP_HEIGHT (45) tiles indexed `[x][y]`; (30,22) and (50,22) are walls and every other tile is empty |
| `Map.GameMapBlockedCells` | src/map/mod.rs:52-56 | in the built map, the set of cells that block movement is exactly {(30,22), (50,22)} |
| `Map.GameMapSightMatchesBlocked` | src/map/mod.rs:52-56 | every tile of the built map blocks sight exactly when it blocks movement |
| `Map.Background` | src/map/mod.rs:70-77 | a tile gets the dark-wall colour if and only if it blocks sight, and the dark-ground colour if and only if it does not |
| `Map.BackgroundIgnoresBlocked` | src/map/mod.rs:70 | two tiles that agree on `block_sight` get the same background, whatever their `blocked` flags |
| `Map.GameMapWallColouredCells` | src/map/mod.rs:68-79 | on the built map, the render pass paints exactly the cells (30,22) and (50,22) in the wall colour |
| `Entities.Moved` | src/main.rs:34-37 | a move ends on the target or where it started; an unblocked target is always reached; the mover never ends on a blocked tile it was not already on |
| `Entities.BlockedMoveIdempotent` | src/main.rs:34 | a move into a blocked tile leaves the position unchanged |
| `Entities.MoveKeepsOffBlocked` | src/main.rs:34-37 | an object on a walkable tile is still on a walkable tile of the map after any move |
| `Entities.Object.constructor` | src/main.rs:27-29 | `new` stores x, y, glyph and colour exactly as given |
| `Entities.Object.MoveBy` | src/main.rs:32-38 | requires the target to lie on the map (no bounds check in the source); the new position is `Moved` of the old one; only `x` and `y` change, and the map is not touched |
| `Entities.Tcod.constructor` | src/main.rs:78-86 | the offscreen console is MAP_WIDTH × MAP_HEIGHT cells; its black background and fullscreen starting off are the toolkit's defaults, since neither `Offscreen::new` nor the root initializer asks otherwise |
| `Render.RenderAll` | src/map/mod.rs:62-79 | objects are drawn in slice order, one draw each; then every viewport cell (x,y) gets `Background(map[x][y])`, which depends only on `block_sight` and not on object positions |
| `Input.Dispatch` | src/main.rs:53-69 | Alt+Enter toggles fullscreen; Escape (with or without Alt) exits; Up, Down, Left and Right move by (0,-1), (0,1), (-1,0) and (1,0); every other key, including Enter without Alt, is ignored; each of these holds in both directions |
| `Input.Step` | src/main.rs:53-69 | handling one key flips fullscreen exactly on Alt+Enter; an arrow moves the player as `Moved` by its delta; any other key leaves the position alone |
| `Input.HandleKeys` | src/main.rs:48-72 | returns true exactly for Escape; the new player position and fullscreen flag are `Step` of the old ones |
| `Input.RunKeepsOffBlocked` | src/main.rs:98-112 | over any sequence of handled key presses, a player who starts on a walkable tile stays on walkable tiles of the map |
| `Input.RunStopsAtEscape` | src/main.rs:108-111 | keys pressed after an Escape change nothing, because the loop ends when `handle_keys` returns true |
| `Input.RepeatedBlockedArrow` | src/main.rs:34 | pressing an arrow that points into a blocked tile any number of times leaves the player in place |
| `Input.NewGame` | src/main.rs:86-95 | the objects are the player `@` at (25,23) in white and then the NPC `@` at (40,25) in yellow; the map is the built map; fullscreen is off |
| `Input.PlayerNeverEntersWall` | src/main.rs:90-112 | from the start (25,23) on the built map, no sequence of key presses brings the player onto a wall |
| `Input.RightArrowAtWall` | src/main.rs:67 | on the built map, Right from (29,22) is blocked by the wall at (30,22), and Right from (29,23) reaches (30,23) |
| `Input.LeftArrowAtEdgeLeavesMap` | src/main.rs:66 | Left maps to (-1,0); at x = 0, with any Alt state and fullscreen flag, the key fails `CanHandle` on every map, so the source would panic there and the precondition of `Step` and `HandleKeys` excludes it |

## Left out

- Window and font set-up, `set_fps` and `Root::initializer` (src/main.rs:75-83) configure the toolkit and hold no game logic.
- `wait_for_keypress` is blocking input, so the key is a parameter of `HandleKeys`.
- `is_fullscreen` and `set_fullscreen` are foreign calls. They are modelled as the boolean field `Tcod.fullscreen`.
- `window_closed`, `flush` and `con.clear()` are display I/O of the main loop.
- The main loop itself (src/main.rs:98-112) is an I/O driver. `Input.Run` models only its effect on the player's position and the fullscreen flag: one handled key per frame, stopping at the first Escape. Rendering between frames and closing the window are not modelled.
- `blit` (src/map/mod.rs:82-90) copies the offscreen console onto the root console, and it is foreign rendering.
- `Object::draw` (src/main.rs:41-44) is modelled only as the `Draw` value that `RenderAll` returns for each object. The foreground and glyph writes into the console are not modelled.
- The `dungeon` module (src/main.rs:3) is not part of this model.
- The remaining fields of the toolkit's key record (ctrl, shift, printable, pressed) are ignored because every arm of the match skips them with `..`. The toolkit's other key codes are folded into `Other`.
- Colours are opaque constants. No arithmetic is done on them.
- Entities.Object.MoveBy: coordinates are unbounded integers, not `i32`. On the game's 80×45 map, any target that lies on the map has `x + dx` and `y + dy` in range for `i32`. So the overflow check of the Rust addition cannot fire there.
