/** Shared value types of the puzzle: grid cells, headings, tile and food kinds,
    level data and the undo snapshot record (Assets/Scripts/LevelData.cs and
    Assets/Scripts/GameState.cs), with cell arithmetic. */
module Grid {

  /** A Vector2Int: a grid cell, or a displacement between two cells. */
  datatype Cell = Cell(x: int, y: int)

  datatype Option<T> = None | Some(value: T)

  datatype Direction = Up | Down | Left | Right

  datatype TileType = Floor | Wall | Pit

  datatype FoodType = Banana | RainbowPotion

  datatype FoodPlacement = FoodPlacement(foodType: FoodType, position: Cell)

  /** The level asset. Its lists are never null here. */
  datatype LevelData = LevelData(
    levelName: string,
    gridWidth: int,
    gridHeight: int,
    floorLayout: seq<string>,
    wallLayout: seq<string>,
    snakeStartPosition: Cell,
    initialSnakeLength: int,
    initialDirection: Direction,
    foodPlacements: seq<FoodPlacement>,
    wormholePosition: Cell)

  /** Snapshot records for undo; no operation of this revision builds them. */
  datatype FoodState = FoodState(foodType: FoodType, position: Cell)

  datatype GameState = GameState(
    snakeSegmentPositions: seq<Cell>,
    snakeDirection: Direction,
    snakeLastTailPosition: Cell,
    foodStates: seq<FoodState>)

  const Zero := Cell(0, 0)

  function Add(a: Cell, b: Cell): Cell { Cell(a.x + b.x, a.y + b.y) }

  function Sub(a: Cell, b: Cell): Cell { Cell(a.x - b.x, a.y - b.y) }

  function Neg(a: Cell): Cell { Cell(-a.x, -a.y) }

  /** How far a cell lies along a direction vector: a linear measure that
      grows by |d.x| + |d.y| with every step along d. */
  function Progress(c: Cell, d: Cell): int {
    (if d.x > 0 then c.x else if d.x < 0 then -c.x else 0) +
    (if d.y > 0 then c.y else if d.y < 0 then -c.y else 0)
  }

  predicate IsUnit(v: Cell) {
    v == Cell(0, 1) || v == Cell(0, -1) || v == Cell(-1, 0) || v == Cell(1, 0)
  }

  /** Two cells that share an edge. */
  predicate Adjacent(a: Cell, b: Cell) { IsUnit(Sub(b, a)) }

  /** Moving one step along a non-zero vector strictly increases the
      progress along that vector. */
  lemma ProgressStep(c: Cell, d: Cell)
    requires d != Zero
    ensures Progress(Add(c, d), d) > Progress(c, d)
  {
  }
}
