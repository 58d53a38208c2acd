/** Level generation of Assets/Scripts/LevelManager.cs. Each layout is a list
    of row strings; row y, character x becomes the tile at cell (x, y): 'F'
    floor, 'W' wall, 'P' pit, anything else no tile. Rows may have different
    lengths. GenerateLevel clears both tilemaps, writes the floor layout and
    then the wall layout with the same character switch, and creates and
    initializes a new snake, unless a reference it needs is missing.

    A tilemap is a map from cells to the kind of tile asset placed there. The
    three tile assets may themselves be unassigned; a character whose asset
    is unassigned places nothing, as the null check after the switch does. */
module Levels {
  import opened Grid
  import Snake

  /** The layout character of each tile kind. */
  function TileChar(t: TileType): char {
    match t
    case Floor => 'F'
    case Wall => 'W'
    case Pit => 'P'
  }

  /** The switch of GenerateLayer: exactly 'F', 'W' and 'P' select a tile,
      each the kind that character stands for. */
  function SelectTile(ch: char): (r: Option<TileType>)
    ensures r.Some? <==> ch == 'F' || ch == 'W' || ch == 'P'
    ensures r.Some? ==> TileChar(r.value) == ch
  {
    match ch
    case 'F' => Some(Floor)
    case 'W' => Some(Wall)
    case 'P' => Some(Pit)
    case _ => None
  }

  /** The tile placed for a character, given which tile assets are assigned. */
  function TileFor(ch: char, assets: set<TileType>): (r: Option<TileType>)
    ensures r.Some? ==> r.value in assets && SelectTile(ch) == r
    ensures SelectTile(ch).Some? && SelectTile(ch).value in assets ==> r == SelectTile(ch)
  {
    var t := SelectTile(ch);
    if t.Some? && t.value in assets then t else None
  }

  /** Every tile kind is selected by its own character. */
  lemma SelectTileChar(t: TileType)
    ensures SelectTile(TileChar(t)) == Some(t)
  {
  }

  /** The tiles written for the first n characters of row y. */
  function RowTiles(row: string, y: int, assets: set<TileType>, n: nat): map<Cell, TileType>
    requires n <= |row|
  {
    if n == 0 then map[]
    else
      var prev := RowTiles(row, y, assets, n - 1);
      var t := TileFor(row[n - 1], assets);
      if t.Some? then prev[Cell(n - 1, y) := t.value] else prev
  }

  /** The tiles written for the first n rows of a layout. */
  function Rows(layout: seq<string>, assets: set<TileType>, n: nat): map<Cell, TileType>
    requires n <= |layout|
  {
    if n == 0 then map[]
    else Rows(layout, assets, n - 1) + RowTiles(layout[n - 1], n - 1, assets, |layout[n - 1]|)
  }

  /** The tiles GenerateLayer writes for a whole layout: only inside the
      layout's rows and columns, and only assigned tile kinds. */
  function Layer(layout: seq<string>, assets: set<TileType>): (m: map<Cell, TileType>)
    ensures forall c :: c in m ==> 0 <= c.y < |layout| && 0 <= c.x < |layout[c.y]|
    ensures m.Values <= assets
  {
    LayerWithin(layout, assets);
    Rows(layout, assets, |layout|)
  }

  /** What a layout says about one cell, read directly: the character at
      column c.x of row c.y when that row and column exist. */
  function TileAt(layout: seq<string>, assets: set<TileType>, c: Cell): Option<TileType> {
    if 0 <= c.y < |layout| && 0 <= c.x < |layout[c.y]| then TileFor(layout[c.y][c.x], assets) else None
  }

  function Lookup(m: map<Cell, TileType>, c: Cell): Option<TileType> {
    if c in m then Some(m[c]) else None
  }

  lemma {:induction false} RowTilesAt(row: string, y: int, assets: set<TileType>, n: nat, c: Cell)
    requires n <= |row|
    ensures Lookup(RowTiles(row, y, assets, n), c) ==
      if c.y == y && 0 <= c.x < n then TileFor(row[c.x], assets) else None
  {
    if n > 0 {
      RowTilesAt(row, y, assets, n - 1, c);
    }
  }

  lemma {:induction false} RowsAt(layout: seq<string>, assets: set<TileType>, n: nat, c: Cell)
    requires n <= |layout|
    ensures Lookup(Rows(layout, assets, n), c) == if c.y < n then TileAt(layout, assets, c) else None
  {
    if n > 0 {
      RowsAt(layout, assets, n - 1, c);
      RowTilesAt(layout[n - 1], n - 1, assets, |layout[n - 1]|, c);
    }
  }

  /** The layer places tiles only inside the layout and only of assigned
      kinds. */
  lemma LayerWithin(layout: seq<string>, assets: set<TileType>)
    ensures forall c :: c in Rows(layout, assets, |layout|) ==> 0 <= c.y < |layout| && 0 <= c.x < |layout[c.y]|
    ensures Rows(layout, assets, |layout|).Values <= assets
  {
    var m := Rows(layout, assets, |layout|);
    forall c | c in m ensures 0 <= c.y < |layout| && 0 <= c.x < |layout[c.y]| {
      RowsAt(layout, assets, |layout|, c);
    }
    forall t | t in m.Values ensures t in assets {
      var c :| c in m && m[c] == t;
      RowsAt(layout, assets, |layout|, c);
    }
  }

  /** The generated layer holds, at every cell (x, y), exactly the tile the
      character at column x of row y selects: 'F', 'W' and 'P' place their
      tile, any other character and any cell past the end of its row or
      below the last row places none. */
  lemma LayerAt(layout: seq<string>, assets: set<TileType>, c: Cell)
    ensures Lookup(Layer(layout, assets), c) == TileAt(layout, assets, c)
  {
    RowsAt(layout, assets, |layout|, c);
  }

  class Tilemap {
    var tiles: map<Cell, TileType>

    constructor ()
      ensures tiles == map[]
    {
      tiles := map[];
    }

    method ClearAllTiles()
      modifies this
      ensures tiles == map[]
    {
      tiles := map[];
    }

    method SetTile(c: Cell, t: TileType)
      modifies this
      ensures tiles == old(tiles)[c := t]
    {
      tiles := tiles[c := t];
    }
  }

  class LevelManager {
    var currentLevelData: Option<LevelData>
    var floorTilemap: Tilemap?
    var wallTilemap: Tilemap?
    /** Whether the snake prefab is assigned. */
    var snakeControllerPrefab: bool
    /** Which of the floor, wall and pit tile assets are assigned. */
    var assignedTiles: set<TileType>
    var snakeController: Snake.SnakeController?

    constructor (levelData: Option<LevelData>, floorTilemap: Tilemap?, wallTilemap: Tilemap?,
                 snakeControllerPrefab: bool, assignedTiles: set<TileType>)
      ensures currentLevelData == levelData && this.floorTilemap == floorTilemap
      ensures this.wallTilemap == wallTilemap && this.snakeControllerPrefab == snakeControllerPrefab
      ensures this.assignedTiles == assignedTiles && snakeController == null
    {
      currentLevelData := levelData;
      this.floorTilemap := floorTilemap;
      this.wallTilemap := wallTilemap;
      this.snakeControllerPrefab := snakeControllerPrefab;
      this.assignedTiles := assignedTiles;
      snakeController := null;
    }

    /** The references GenerateLevel checks before doing anything. */
    predicate ReferencesAssigned()
      reads this
    {
      currentLevelData.Some? && floorTilemap != null && wallTilemap != null && snakeControllerPrefab
    }

    /** Clear both tilemaps, write both layers, and replace the snake with a
        new one initialized from the level data. With a missing reference
        nothing changes. When both references name the same tilemap, the wall
        layer is written over the floor layer. */
    method GenerateLevel()
      modifies this`snakeController, floorTilemap, wallTilemap
      ensures !ReferencesAssigned() ==> snakeController == old(snakeController)
      ensures !ReferencesAssigned() && floorTilemap != null ==> floorTilemap.tiles == old(floorTilemap.tiles)
      ensures !ReferencesAssigned() && wallTilemap != null ==> wallTilemap.tiles == old(wallTilemap.tiles)
      ensures ReferencesAssigned() ==>
        var data := currentLevelData.value;
        var floor, wall := Layer(data.floorLayout, assignedTiles), Layer(data.wallLayout, assignedTiles);
        wallTilemap.tiles == (if floorTilemap == wallTilemap then floor else map[]) + wall &&
        (floorTilemap != wallTilemap ==> floorTilemap.tiles == floor) &&
        snakeController != null && fresh(snakeController) &&
        snakeController.currentDirection == data.initialDirection &&
        snakeController.snakeSegments ==
          Snake.StraightSnake(data.snakeStartPosition, data.initialDirection, data.initialSnakeLength)
    {
      if currentLevelData.None? || floorTilemap == null || wallTilemap == null || !snakeControllerPrefab {
        return;
      }
      floorTilemap.ClearAllTiles();
      wallTilemap.ClearAllTiles();
      GenerateLayer(floorTilemap, currentLevelData.value.floorLayout);
      GenerateLayer(wallTilemap, currentLevelData.value.wallLayout);
      var snakeInstance := new Snake.SnakeController();
      snakeInstance.Initialize(currentLevelData.value);
      snakeController := snakeInstance;
    }

    /** Write the tile of every character of every row at (column, row). */
    method GenerateLayer(targetTilemap: Tilemap, layout: seq<string>)
      modifies targetTilemap
      ensures targetTilemap.tiles == old(targetTilemap.tiles) + Layer(layout, assignedTiles)
    {
      var y := 0;
      while y < |layout|
        invariant 0 <= y <= |layout|
        invariant targetTilemap.tiles == old(targetTilemap.tiles) + Rows(layout, assignedTiles, y)
      {
        var row := layout[y];
        var x := 0;
        while x < |row|
          invariant 0 <= x <= |row|
          invariant targetTilemap.tiles ==
            old(targetTilemap.tiles) + Rows(layout, assignedTiles, y) + RowTiles(row, y, assignedTiles, x)
        {
          var tileChar := row[x];
          var selectedTile: Option<TileType> := None;
          match tileChar {
            case 'F' => if Floor in assignedTiles { selectedTile := Some(Floor); }
            case 'W' => if Wall in assignedTiles { selectedTile := Some(Wall); }
            case 'P' => if Pit in assignedTiles { selectedTile := Some(Pit); }
            case _ =>
          }
          if selectedTile.Some? {
            targetTilemap.SetTile(Cell(x, y), selectedTile.value);
          }
          x := x + 1;
        }
        y := y + 1;
      }
    }
  }
}
