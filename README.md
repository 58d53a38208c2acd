# Push-block Snake: the grid simulation core in Dafny

This project models the deterministic grid logic of a Unity "push-block
Snake" puzzle game, as this revision of the scripts has it:

- **Chained food push** (`FoodItem.Push`). A food item pushed one cell along a
  vector fails when the next cell is a wall. When another food sits there, it
  first pushes that one and moves itself only if that push succeeded. The
  level services it calls (`IsWallAt`, `GetFoodAt`, `UpdateFoodPosition`) are
  modelled abstractly by `FoodItems.FoodBoard`: a wall predicate and a finite
  map from cells to food objects. Three specification functions describe the
  push: `Run`, the contiguous run of occupied cells it reaches; `ChainClear`,
  whether the recursion returns true; and `Shift`, the occupancy map after a
  success. The lemmas prove the push all-or-nothing, prove that it moves every
  food of the run exactly one cell and no other food, and prove that it
  terminates within as many calls as there are foods.
- **Snake body** (`SnakeController`): a straight body built behind the start
  cell, heading changes that never reverse, and the in-place shift of
  `Move`, with the loop kept as in the source.
- **Level status** (`GameManager`): Playing, LevelWon and LevelLost. Winning
  and losing only take effect while playing, and `StartLevel` resets.
- **Wormhole** (`Wormhole`): a cell and an active flag. Only `Initialize`
  closes it.
- **Layout parsing** (`LevelManager.GenerateLayer`/`GenerateLevel`). Row
  strings become a partial map from cells (x, y) to tile kinds, written by
  nested loops into tilemap objects.

Modules: `Grid` (grid.dfy: cells and the enums and records of
`LevelData.cs` and `GameState.cs`), `FoodItems` (food.dfy), `Snake`
(snake.dfy), `Game` (game.dfy), `Wormholes` (wormhole.dfy) and `Levels`
(levels.dfy).

This revision of the code differs from the game's later rules, and the model follows the code:
- This revision's push has no pit handling. A food is never destroyed, and
  the only thing that stops a push is a wall.
- `Move` does no wall or self-collision check.
- `Activate` opens the wormhole without looking at the food index.
- Keyboard input is the set of arrow keys pressed in the frame, not a single
  direction. Several `GetKeyDown` calls can be true in one frame, and the
  else-if chain then takes the first eligible key in the order Up, Down,
  Left, Right. `Snake.ChosenPriority` shows that a single key behaves as a
  plain direction parameter would.

## Model

| member | source | states |
|---|---|---|
| `FoodItems.FoodItem.Push` | Assets/Scripts/FoodItem.cs:21-47 | Returns true exactly when `ChainClear` holds. On success the occupancy map becomes `Shift` of the old one and this item's `gridPosition` advances by the direction. On failure neither the map nor any position changes. The board stays consistent (every indexed food records its own cell) and the wall predicate is untouched. |
| `FoodItems.FoodItem.Initialize` | Assets/Scripts/FoodItem.cs:11-19 | Records the start cell, food type and level board. |
| `FoodItems.FoodBoard.IsWallAt` | Assets/Scripts/FoodItem.cs:25 | Answers the board's wall predicate for the cell; the wall layout behind it is abstract. |
| `FoodItems.FoodBoard.GetFoodAt` | Assets/Scripts/FoodItem.cs:30 | Finds a food exactly when the cell is indexed. On a consistent board the food found belongs to this board and records that cell as its own position. |
| `FoodItems.FoodBoard.UpdateFoodPosition` | Assets/Scripts/FoodItem.cs:42 | The occupancy map becomes `Move(old map, from, to)`. |
| `FoodItems.Move` | Assets/Scripts/FoodItem.cs:42 | The entry at the old cell, if present, now sits at the new cell. The old cell is vacated and every other entry is kept. |
| `FoodItems.AheadShrinks` | Assets/Scripts/FoodItem.cs:30-34 | The food one step ahead has strictly fewer foods further along the direction than the pusher. This set is the termination measure of the recursion. |
| `FoodItems.Run` | Assets/Scripts/FoodItem.cs:30-34 | The run a push reaches starts with the pushed item's own cell. |
| `FoodItems.RunShape` | Assets/Scripts/FoodItem.cs:23-34 | The run is contiguous: each later member is occupied and one step past its predecessor. It is maximal: the cell one step past its last member is free. Every later member lies strictly further along the direction, so no cell repeats. |
| `FoodItems.RunWithinAhead` | Assets/Scripts/FoodItem.cs:30-34 | The run is at most one longer than the number of foods ahead of the pusher. |
| `FoodItems.RunBounded` | Assets/Scripts/FoodItem.cs:30-34 | The recursion depth (the run length) is at most the number of foods on the board. |
| `FoodItems.ChainClear` | Assets/Scripts/FoodItem.cs:23-38 | Push's return value. When it is true, the cell ahead of the pushed item is no wall, and neither is the cell the last food of the run moves into. |
| `FoodItems.ChainClearIff` | Assets/Scripts/FoodItem.cs:23-38 | The push succeeds if and only if no member of the run would step onto a wall. One wall ahead of any member makes the whole chain fail. |
| `FoodItems.Shift` | Assets/Scripts/FoodItem.cs:30-43 | Push's effect on the index after a success: the pushed item's old cell is vacated, and no food appears that was not indexed before. |
| `FoodItems.ShiftSpec` | Assets/Scripts/FoodItem.cs:30-46 | After a successful push, the first cell of the run is vacated and the cell past its last member is taken. Each food of the run sits exactly one cell further along the direction. Every food outside the run keeps its cell. |
| `FoodItems.ShiftUnfold` | Assets/Scripts/FoodItem.cs:34-43 | The inner push does not touch the pusher's entry. The pusher's entry then moves into the cell the inner push vacated. |
| `FoodItems.ShiftKeepsCount` | Assets/Scripts/FoodItem.cs:34-43 | A push keeps the number of occupied cells. The farther food vacates its cell before the nearer one is written there, so no food overwrites another. |
| `FoodItems.ShiftKeepsFoods` | Assets/Scripts/FoodItem.cs:34-43 | A push keeps exactly the same set of foods on the board. |
| `Snake.Vector` | Assets/Scripts/SnakeController.cs:80-89 | Every heading maps to a unit vector. |
| `Snake.Opposite` | Assets/Scripts/SnakeController.cs:42-57 | The heading paired with each key in the guards is a different heading. |
| `Snake.VectorOpposite` | Assets/Scripts/SnakeController.cs:80-89 | Opposite headings map to negated vectors, and distinct headings to distinct vectors. Opposite is an involution. |
| `Snake.Behind` | Assets/Scripts/SnakeController.cs:29-34 | The cell i steps behind the start lies i units back along the heading's vector. |
| `Snake.StraightSnake` | Assets/Scripts/SnakeController.cs:27-34 | The built body has exactly `initialSnakeLength` segments (none if that is not positive). Segment i is start − i·vector(heading). |
| `Snake.StraightSnakeShape` | Assets/Scripts/SnakeController.cs:29-34 | Segment 0 is the start cell. Consecutive segments share an edge, and no two segments share a cell. |
| `Snake.Advance` | Assets/Scripts/SnakeController.cs:66-75 | The segment count is preserved. The new head is the old head plus the vector. Segment i>0 is old segment i−1. An empty body stays empty. |
| `Snake.AdvanceConnected` | Assets/Scripts/SnakeController.cs:68-75 | Move keeps a connected body connected. The segments after the head are the old body without its tail, so only the old tail cell is dropped. |
| `Snake.Chosen` | Assets/Scripts/SnakeController.cs:42-61 | A turn, when taken, is to a pressed key that does not reverse the heading. |
| `Snake.ChosenNoneIff` | Assets/Scripts/SnakeController.cs:42-61 | No turn happens exactly when every pressed key is the one reversing the heading. |
| `Snake.ChosenPriority` | Assets/Scripts/SnakeController.cs:42-61 | The earliest eligible key in the chain wins. A lone non-reversing key is taken and a lone reversing key is ignored. |
| `Snake.SnakeController.constructor` | Assets/Scripts/SnakeController.cs:12-16 | Awake starts with an empty body. The heading is the enum default, Up. |
| `Snake.SnakeController.Initialize` | Assets/Scripts/SnakeController.cs:24-37 | The heading becomes the level's initial direction. The body becomes `StraightSnake` of the start cell, heading and length. |
| `Snake.SnakeController.HandleInput` | Assets/Scripts/SnakeController.cs:39-62 | With no eligible key, neither heading nor body changes. Otherwise the heading becomes the chosen key and the body advances once along it, so there is at most one turn and one move per call. |
| `Snake.SnakeController.Move` | Assets/Scripts/SnakeController.cs:64-78 | The in-place backward loop leaves the body equal to `Advance` of the old body along the current heading. |
| `Game.Next` | Assets/Scripts/GameManager.cs:28-47 | StartLevel always yields Playing. WinLevel and LoseLevel leave a non-Playing status unchanged. |
| `Game.TerminalAbsorbs` | Assets/Scripts/GameManager.cs:33-46 | Any sequence of WinLevel/LoseLevel calls leaves LevelWon or LevelLost unchanged. Only StartLevel leaves them. |
| `Game.FirstOutcomeSticks` | Assets/Scripts/GameManager.cs:33-46 | From Playing, a sequence of win and lose calls ends in the outcome of its first call. |
| `Game.StartLevelResets` | Assets/Scripts/GameManager.cs:28-31 | Whatever came before a StartLevel, the calls after it behave as from Playing. |
| `Game.GameManager.constructor` | Assets/Scripts/GameManager.cs:7-14 | The status before any call is Playing, the enum's first member. |
| `Game.GameManager.StartLevel` | Assets/Scripts/GameManager.cs:28-31 | The status becomes Playing from any status. |
| `Game.GameManager.WinLevel` | Assets/Scripts/GameManager.cs:33-39 | From Playing the status becomes LevelWon; otherwise it is unchanged. |
| `Game.GameManager.LoseLevel` | Assets/Scripts/GameManager.cs:41-47 | From Playing the status becomes LevelLost; otherwise it is unchanged. |
| `Wormholes.Apply` | Assets/Scripts/Wormhole.cs:17-30 | Initialize(p) closes the wormhole and records p. Activate opens it and keeps the cell. |
| `Wormholes.ActivateIdempotent` | Assets/Scripts/Wormhole.cs:26-30 | Activating twice is the same as activating once. |
| `Wormholes.OnlyInitializeCloses` | Assets/Scripts/Wormhole.cs:17-30 | An open wormhole stays open through any sequence of calls without an Initialize. |
| `Wormholes.PositionIsLastInitialized` | Assets/Scripts/Wormhole.cs:17-32 | After any sequence of calls, the recorded cell is the one given to the last Initialize, or the initial cell if there was none. |
| `Wormholes.Wormhole.constructor` | Assets/Scripts/Wormhole.cs:9-10 | A new wormhole is inactive, at the default cell (0, 0). |
| `Wormholes.Wormhole.Initialize` | Assets/Scripts/Wormhole.cs:17-24 | Afterwards `IsActive()` is false, and `IsAtPosition(q)` holds exactly for q = the given cell. |
| `Wormholes.Wormhole.Activate` | Assets/Scripts/Wormhole.cs:26-30 | Afterwards `IsActive()` is true, and `IsAtPosition` answers as before. |
| `Wormholes.Wormhole.IsAtPosition` | Assets/Scripts/Wormhole.cs:32 | True exactly for the cell the call history recorded, the cell `PositionIsLastInitialized` identifies. |
| `Wormholes.Wormhole.IsActive` | Assets/Scripts/Wormhole.cs:33 | The open flag of the state that `Apply` tracks, so it is true after Activate and false after Initialize. |
| `Levels.SelectTile` | Assets/Scripts/LevelManager.cs:62-73 | A tile kind is selected exactly for 'F', 'W' and 'P', and the kind selected is the one written with that character. |
| `Levels.SelectTileChar` | Assets/Scripts/LevelManager.cs:62-73 | Every tile kind is selected by its own character, so the switch misses no kind. |
| `Levels.TileFor` | Assets/Scripts/LevelManager.cs:59-75 | A tile is placed only for 'F', 'W' or 'P', and only when that tile asset is assigned. Conversely, 'F', 'W' and 'P' place their tile whenever its asset is assigned. |
| `Levels.RowTilesAt` | Assets/Scripts/LevelManager.cs:56-79 | After the first n characters of row y, a cell holds a tile only if it lies in that row at a column below n. The tile is the one selected by the character at that column. |
| `Levels.RowsAt` | Assets/Scripts/LevelManager.cs:54-80 | After the first n rows, a cell (x, y) with y < n holds exactly the tile its character selects, and no other cell holds one. |
| `Levels.Layer` | Assets/Scripts/LevelManager.cs:52-81 | The tiles a layout generates lie only inside its rows and columns and are only of assigned kinds. |
| `Levels.LayerWithin` | Assets/Scripts/LevelManager.cs:54-77 | The bounds and asset facts of `Layer`, proved from the per-cell reading. |
| `Levels.LayerAt` | Assets/Scripts/LevelManager.cs:52-81 | The generated layer holds at (x, y) exactly the tile selected by character x of row y. Cells past the end of a ragged row, or past the last row, hold none. |
| `Levels.LevelManager.constructor` | Assets/Scripts/LevelManager.cs:6-22 | Records the inspector references. No snake exists yet. |
| `Levels.LevelManager.GenerateLayer` | Assets/Scripts/LevelManager.cs:52-81 | The target tilemap becomes its old tiles overwritten by `Layer(layout)`. |
| `Levels.LevelManager.GenerateLevel` | Assets/Scripts/LevelManager.cs:29-50 | With a missing level data, tilemap or snake prefab, nothing changes. Otherwise the floor map is exactly the floor layer and the wall map exactly the wall layer, built with the same switch. Both are cleared first, so an 'F' or 'P' in the wall layout lands in the wall map. If both references name one tilemap, the wall layer is written over the floor layer. A fresh snake is initialized from the level data. |

## Left out

- Rendering and Unity plumbing: world positions (`GetCellCenterWorld`), sorting orders, sprites, `SnakeVisuals` calls, `Debug.Log`, `Awake`/`Update`/`Start`, the `GameManager.Instance` singleton, `Instantiate`/`Destroy`, and `FoodItem.Consume`. A destroyed snake object is modelled by dropping the reference.
- `Input.GetKeyDown` becomes the `pressed` parameter of `HandleInput`.
- The snake segment list that `SnakeVisuals` shares by reference is not modelled. The body is a sequence field reassigned in place.
- `IsWallAt`, `GetFoodAt` and `UpdateFoodPosition` are not defined in `LevelManager.cs`; `LevelManager.cs` is not part of this model for them. They are an abstract wall predicate and occupancy map. `UpdateFoodPosition` with no entry at the old cell is taken to change nothing; `Push` never calls it that way.
- `FoodItems.FoodItem.Push` requires a non-zero direction and a consistent occupancy index that lists the pushed item at its own cell. With a zero vector the source returns false when the item's own cell is a wall, and otherwise pushes the item onto itself and recurses without end; the model excludes both cases.
- Null layout lists in the level data are not modelled; layouts are sequences of strings.
- `SnakeVisuals.cs`, `CheckerboardRuleTile.cs`, `SnakeFaceController.cs`, `UIManager.cs`, `AudioManager.cs`, `DataManager.cs` and `GameEvents.cs` are not part of this model. They cover rendering, menus, audio, persistence and the event bus.
- Levels.LayerAt: a layout row is a sequence of Unicode characters, and `RowTiles` and `Layer` index it by character. C# indexes a string by UTF-16 code unit, so a row holding a character outside the Basic Multilingual Plane places its later tiles one column further right in the source than in the model.
- Cell arithmetic uses unbounded integers. `Vector2Int` coordinates are 32-bit and wrap on overflow; positions near the limits of `int` are not modelled (in `Push`, `Initialize` and `Move`).
- `Direction` holds only its four members. The `default` branch of `GetVectorForDirection`, which returns the zero vector for a value outside the enum, cannot be reached in the model.
- The `GameState`/`FoodState` snapshot records are declared as datatypes. No operation of this revision builds or restores them, so undo is not modelled.
