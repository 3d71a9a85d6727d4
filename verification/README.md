# game-top-down: a Dafny model of the game's core

This models the early, self-contained core of a small top-down tile game written in Python with pygame:

- **Tile map** (`map.py`): a built-in 25×19 grid of tile codes with walls on the border and two obstacle runs. The map also holds one 32-pixel rectangle per wall tile and the player-against-wall collision test. The grid is a `seq<seq<int>>` field that the constructor builds row by row. The wall list is a `seq<Rect>` field. Both are specified by `Tile(x, y)` and by `WallRects`, the row-major list of wall rectangles.
- **Game state** (`game_state.py`): the screen machine with a current and a previous screen, `change_state`, the swapping `return_to_previous_state` and the four `is_*` tests.
- **Player** (`player.py`): the 32×32 sprite. One `update` resets the velocity, picks the velocity and facing from the held keys (later checks win), moves, and clamps the rectangle into the 800×600 window.
- **Menus** (`title_screen.py`, `pause_screen.py`, `character_select.py`): each `handle_event` moves a cyclic cursor or returns the highlighted option. Each screen is a class with a `selectedIndex` field. A pure `Step` function specifies one event, and lemmas state the menu's properties. The shared wrap-around arithmetic lives in `MenuCursor`.
- **Built-in world data** (`check_game_files.py`): the two map descriptions and the tile-type table, as pure functions. Lemmas state their consistency: shape, walls, doors under portals, reciprocal portals, signs on floor, known codes.

pygame's `Rect.colliderect` is modelled as a shared area larger than zero (`Geometry.Overlaps`). Touching edges do not collide, and an empty rectangle collides with nothing. Sizes are natural numbers. Key polling becomes a `set<Key>` parameter, and a pygame event becomes `Input.Event`.

This model covers the version of the game in which `map.py` builds one fixed map with no argument and `game_state.py` has four states. Map loading from files, portals, edge transitions, dialogs and the shop are not part of this model.

## Model

| member | source | states |
|---|---|---|
| `TileMap.Map.constructor` | map.py:7-51 | the grid has 19 rows of 25 codes. Each cell is WALL exactly on the border and on the two obstacle runs, and EMPTY elsewhere. The wall list equals the row-major list of wall-tile rectangles |
| `TileMap.ArenaRow` | map.py:26-31 | row y of the arena has 25 codes, WALL exactly in the cells on the border and EMPTY elsewhere |
| `TileMap.BuildArena` | map.py:24-32 | the arena has 19 rows of 25 codes, WALL exactly on the border and EMPTY inside |
| `TileMap.StampObstacles` | map.py:34-39 | stamping the two obstacle runs onto the arena gives the built grid: WALL on the border and on the runs, EMPTY elsewhere |
| `TileMap.CollectWallRects` | map.py:41-51 | for a 19×25 grid the collected list is the row-major list of 32×32 rectangles of the WALL cells |
| `TileMap.BuiltGridCells` | map.py:24-39 | in the built grid, border cells and obstacle cells (row 5, columns 5-9; column 15, rows 8-11) are WALL, and every other cell is EMPTY |
| `TileMap.ObstaclesAreInterior` | map.py:28-39 | obstacle cells lie strictly inside the border, so the border walls and the obstacle walls are disjoint |
| `TileMap.WallRectsExact` | map.py:42-51 | a rectangle is in the wall list if and only if it is (32x, 32y, 32, 32) for a wall cell (x, y) |
| `TileMap.WallRectsRowMajor` | map.py:42-51 | the wall list is strictly increasing in row-major order, so no rectangle appears twice and each wall tile gives exactly one |
| `TileMap.WallCount` | map.py:28-51 | the built map has exactly 93 wall rectangles: 84 border tiles plus 9 obstacle tiles |
| `TileMap.Map.CheckCollision` | map.py:67-81 | returns true if and only if the player's rectangle overlaps some wall rectangle, that is, some wall tile. The player's rectangle is left exactly as it was, because the "restore" writes back the values read on entry |
| `TileMap.CollisionMeansWallTile` | map.py:74-81 | overlapping a rectangle of the wall list is the same as overlapping the area of a wall tile of the grid |
| `TileMap.CollisionLeavesPlayerInWall` | map.py:70-78 | the player rectangle (20, 100, 32, 32) overlaps a wall tile of the left border |
| `TileMap.CheckCollisionLeavesPlayerStuck` | map.py:67-81 | on a freshly built map, a player at (20, 100, 32, 32) gets a hit from `check_collision` and still overlaps a wall afterwards |
| `TileMap.Map.ResolveCollision` | map.py:67-81 | corrected check: on a hit the player goes back to a position saved before the move, so a player that started clear of the walls ends clear of them |
| `Geometry.OverlapsIffCommonPixel` | map.py:75 | two rectangles collide if and only if some pixel lies inside both |
| `GameStates.GameState.constructor` | game_state.py:11-13 | the machine starts on the title screen with no previous state |
| `GameStates.GameState.ChangeState` | game_state.py:15-18 | the new screen becomes current, and the screen that was current becomes previous |
| `GameStates.GameState.ReturnToPreviousState` | game_state.py:20-25 | swaps current and previous when a previous screen exists, and otherwise changes nothing |
| `GameStates.ChangeRecordsPrevious` | game_state.py:15-18 | after `change_state(s)` the current screen is `s` and the previous one is the screen that was left |
| `GameStates.ChangeThenReturnRestores` | game_state.py:15-25 | a change followed by a return brings back the original current screen, with the changed-to screen as previous |
| `GameStates.ReturnTwiceIsIdentity` | game_state.py:20-25 | two returns in a row restore both fields |
| `GameStates.ReturnWithoutPreviousIsNoop` | game_state.py:22 | with no previous screen, a return leaves both fields unchanged |
| `GameStates.ExactlyOneScreen` | game_state.py:27-41 | each `is_*` test holds if and only if the current screen is its constant, and exactly one of the four holds |
| `Players.Player.constructor` | player.py:7-23 | the rectangle is 32×32 and centred on (x, y). The velocity is zero, the speed is 5, and the player faces down |
| `Players.Player.Update` | player.py:25-65 | facing and velocity follow the held keys, the speed is unchanged, and the new rectangle is the old one moved by the velocity and then clamped into the window |
| `Players.ClampToScreen` | player.py:57-65 | keeps width and height. A rectangle that fits the window ends inside [0, 800]×[0, 600], and an axis already inside the window is not moved |
| `Players.UpdateStaysOnScreen` | player.py:53-65 | whatever the displacement, after an update a player that fits the window has left ≥ 0, right ≤ 800, top ≥ 0 and bottom ≤ 600, and its size is unchanged |
| `Players.FacingRules` | player.py:33-47 | a held vertical key makes the facing vertical, with down winning over up. Otherwise right wins over left. With no key held, the facing is kept |
| `Players.BothHorizontalMovesRight` | player.py:33-39 | with left and right both held, the horizontal velocity is +speed whatever else is held. With no vertical key held and a positive speed, the frame's shift is exactly (speed, 0) |
| `Players.NoKeyNoMove` | player.py:27-55 | with no movement key held the velocity is zero, and the new rectangle is the old one clamped into the window |
| `Players.StraightMoveIsSpeed` | player.py:33-51 | with a positive speed, a move along one axis (right, left, down or up) shifts the player exactly `speed` pixels in that direction. Normalisation changes nothing there |
| `MenuCursor.Prev` | pause_screen.py:45-46 | `(i - 1) % n` stays in [0, n) and wraps from the first option to the last |
| `MenuCursor.Next` | pause_screen.py:47-48 | `(i + 1) % n` stays in [0, n) and wraps from the last option to the first |
| `MenuCursor.PrevNextInverse` | title_screen.py:41-44 | a move back followed by a move forward, or the reverse, restores the cursor |
| `MenuCursor.FullCycleIsIdentity` | pause_screen.py:47-48 | n moves forward over n options bring the cursor back where it started |
| `PauseMenu.PauseScreen.constructor` | pause_screen.py:7-22 | buttons are resume, menu and quit, in that order, and the cursor starts at 0 |
| `PauseMenu.PauseScreen.HandleEvent` | pause_screen.py:42-54 | the new cursor and the returned action are those of one `Step`, and the cursor stays in range |
| `PauseMenu.StepStaysInRange` | pause_screen.py:45-48 | the cursor stays in [0, 3) after any event |
| `PauseMenu.ReturnGivesSelectedAction` | pause_screen.py:49-50 | Enter returns the highlighted button's action, which is one of "resume", "menu" or "quit", and the cursor does not move |
| `PauseMenu.EscapeResumes` | pause_screen.py:51-52 | Escape returns "resume" whatever is highlighted, and the cursor does not move |
| `PauseMenu.ArrowsUndoEachOther` | pause_screen.py:45-48 | up then down, or down then up, restores the cursor. Three downs are the identity |
| `PauseMenu.OtherInputIgnored` | pause_screen.py:42-54 | other keys and non-key events return nothing and leave the cursor |
| `TitleMenu.TitleScreen.constructor` | title_screen.py:7-22 | buttons are start_game, help and quit, in that order, and the cursor starts at 0 |
| `TitleMenu.TitleScreen.HandleEvent` | title_screen.py:38-48 | the new cursor and the returned action are those of one `Step`, and the cursor stays in range |
| `TitleMenu.StepStaysInRange` | title_screen.py:41-44 | the cursor stays in [0, 3) after any event |
| `TitleMenu.ReturnGivesSelectedAction` | title_screen.py:45-46 | Enter returns the highlighted button's action, which is one of "start_game", "help" or "quit", and the cursor does not move |
| `TitleMenu.FirstReturnStartsGame` | title_screen.py:16-46 | from the initial cursor, Enter returns "start_game" |
| `TitleMenu.ArrowsUndoEachOther` | title_screen.py:41-44 | up then down, or down then up, restores the cursor. Three downs are the identity |
| `TitleMenu.OtherInputIgnored` | title_screen.py:38-48 | Escape, other keys and non-key events return nothing and leave the cursor |
| `CharacterMenu.CharacterSelect.constructor` | character_select.py:7-18 | the character table is installed and the cursor starts at 0 |
| `CharacterMenu.CharacterSelect.GetSelectedCharacter` | character_select.py:50-52 | returns the table entry under the cursor, which is one of the three characters |
| `CharacterMenu.CharacterSelect.HandleEvent` | character_select.py:38-48 | the new cursor and the returned choice are those of one `Step`, and the cursor stays in range |
| `CharacterMenu.StepStaysInRange` | character_select.py:41-44 | the cursor stays in [0, 3) after any event |
| `CharacterMenu.ReturnChoosesSelected` | character_select.py:45-52 | Enter returns exactly the highlighted character and the cursor does not move |
| `CharacterMenu.CharacterTable` | character_select.py:12-16 | the table is Guerreiro (speed 5), Arqueiro (speed 6) and Mago (speed 4), in that order |
| `CharacterMenu.ArrowsUndoEachOther` | character_select.py:41-44 | left then right, or right then left, restores the cursor. Three rights are the identity |
| `CharacterMenu.OtherInputIgnored` | character_select.py:38-48 | up, down, other keys and non-key events return nothing and leave the cursor |
| `WorldData.Repeat` | check_game_files.py:87-91 | `[v] * n` has length n and holds v everywhere |
| `WorldData.DefaultMapRows` | check_game_files.py:86-92 | the forest grid has 19 rows: solid walls at rows 0 and 18, the door row at 9, walled floor rows elsewhere |
| `WorldData.Map2Rows` | check_game_files.py:130-135 | the cave grid has 19 rows: solid walls at rows 0 and 18, the door row at 17, walled floor rows elsewhere |
| `WorldData.BuiltInMapsWellShaped` | check_game_files.py:79-135 | both grids have the declared 19 rows of 25 codes. The first and last rows are all wall, and every row starts and ends with a wall |
| `WorldData.BuiltInObjectsPlaced` | check_game_files.py:86-154 | each portal stands on a door tile (forest (12, 9), cave (12, 17)). Each sign stands on a floor tile (forest (10, 9), cave (14, 17)) |
| `WorldData.BuiltInPortalsReciprocal` | check_game_files.py:93-144 | each portal targets a map of the world and a tile where that map has a portal leading straight back |
| `WorldData.BuiltInCodesKnown` | check_game_files.py:86-201 | every code in both grids (0, 1, 2) and every object id (12) has an entry in the tile-type table |
| `WorldData.OnlyWallCollides` | check_game_files.py:166-201 | in the tile-type table only code "1" has collision set |

## Left out

- All `draw` methods, fonts, colours, button geometry and the pause overlay: these are rendering only.
- `help_screen.py`, `generate_images.py`, `game.py`, `main.py` and `utils.py` are not part of this model. `game.py` calls map and player operations that `map.py` and `player.py` do not define.
- In `check_game_files.py`: the `check_*` helpers, `pygame.init` and the writing of the JSON, audio and image files. These are filesystem and pygame side effects. `WorldData.World` keys the two maps by the file names they are written to (check_game_files.py:204-205).
- `Players.Player.Update`: the pygame key polling is a `set<Key>` parameter. Diagonal normalisation (`Vector2.normalize`, floating point) is not modelled. A diagonal move adds about ±speed/√2 to the integer position, and pygame drops the fraction when it stores it, so the pixel shift depends on the direction (from x = 100, +3 to the right but −4 to the left) and near 0 on the position. The model takes the diagonal shift as the parameter `diagonalShift` and does not tie it to the held keys. Moves along one axis are exact.
- `Players.Player.Update`: the source assigns `self.velocity`, `self.direction` and `self.rect` step by step. The model computes the same values in locals and stores them at the end, which gives the same result because nothing else runs during an update.
- `GameStates.GameState.ChangeState`: Python accepts any value as a new state. The class defines exactly four state constants, and the model admits only those; other values, `None` included, are not modelled. `GameStates.ReturnTwiceIsIdentity` and `GameStates.ExactlyOneScreen` rely on this: after `change_state(None)` from the title screen, two returns give (TITLE_SCREEN, None) rather than the state before them, and no `is_*` test holds.
- Python integers are unbounded, so there is no wrap-around to model. pygame's handling of negative rectangle sizes is not modelled: sizes are natural numbers.

## Findings

| source | as written | input that shows it | evidently intended | confidence | as-written member | corrected member |
|---|---|---|---|---|---|---|
| map.py:67-81 | on a hit, `check_collision` writes back the position it read at entry to the same call, so nothing is restored | a player rectangle (20, 100, 32, 32), 12 pixels into the left border wall: the check returns True and the player stays inside the wall | on a hit, restore the position the player held before this frame's move, so the player never ends a frame inside a wall | high that the restore is a no-op, medium on the intent; not executed | `TileMap.CheckCollisionLeavesPlayerStuck` (with `TileMap.CollisionLeavesPlayerInWall`) | `TileMap.Map.ResolveCollision` |
