/** The snake body of Assets/Scripts/SnakeController.cs: a list of cells
    (index 0 is the head) and a heading. Initialize lays the snake out in a
    straight line behind its start cell, HandleInput turns it (never by 180
    degrees) and moves it, and Move advances the head one cell while every
    other segment takes its predecessor's cell. Keyboard input becomes the
    set of arrow keys pressed in the frame. */
module Snake {
  import opened Grid

  /** GetVectorForDirection: Unity's Vector2Int.up, down, left and right. */
  function Vector(d: Direction): (v: Cell)
    ensures IsUnit(v)
  {
    match d
    case Up => Cell(0, 1)
    case Down => Cell(0, -1)
    case Left => Cell(-1, 0)
    case Right => Cell(1, 0)
  }

  /** The heading HandleInput refuses to turn to: its guards pair Up with
      Down and Left with Right. */
  function Opposite(d: Direction): (r: Direction)
    ensures r != d
  {
    match d
    case Up => Down
    case Down => Up
    case Left => Right
    case Right => Left
  }

  /** Opposite headings have negated vectors, and distinct headings have
      distinct vectors. */
  lemma VectorOpposite(d: Direction, e: Direction)
    ensures Vector(Opposite(d)) == Neg(Vector(d))
    ensures Vector(d) == Vector(e) <==> d == e
    ensures Opposite(Opposite(d)) == d
  {
  }

  /** The cell i steps behind `start` for a snake heading `heading`. */
  function Behind(start: Cell, heading: Direction, i: int): (c: Cell)
    ensures Progress(c, Vector(heading)) == Progress(start, Vector(heading)) - i
  {
    match heading
    case Up => Cell(start.x, start.y - i)
    case Down => Cell(start.x, start.y + i)
    case Left => Cell(start.x + i, start.y)
    case Right => Cell(start.x - i, start.y)
  }

  /** The body Initialize builds: `length` segments, segment i being i steps
      behind the start cell (none when length is not positive). */
  function StraightSnake(start: Cell, heading: Direction, length: int): (body: seq<Cell>)
    ensures |body| == if length > 0 then length else 0
    ensures forall i :: 0 <= i < |body| ==> body[i] == Behind(start, heading, i)
    decreases length
  {
    if length <= 0 then [] else StraightSnake(start, heading, length - 1) + [Behind(start, heading, length - 1)]
  }

  /** Consecutive segments share an edge. */
  predicate Connected(body: seq<Cell>) {
    forall i :: 0 <= i < |body| - 1 ==> Adjacent(body[i], body[i + 1])
  }

  /** No two segments occupy the same cell. */
  predicate Distinct(body: seq<Cell>) {
    forall i, j :: 0 <= i < j < |body| ==> body[i] != body[j]
  }

  /** A freshly built snake starts at its start cell, is a straight line of
      edge-sharing cells, and never overlaps itself. */
  lemma StraightSnakeShape(start: Cell, heading: Direction, length: int)
    ensures length > 0 ==> StraightSnake(start, heading, length)[0] == start
    ensures Connected(StraightSnake(start, heading, length))
    ensures Distinct(StraightSnake(start, heading, length))
  {
    var body := StraightSnake(start, heading, length);
    forall i | 0 <= i < |body| - 1 ensures Adjacent(body[i], body[i + 1]) {
      assert Sub(body[i + 1], body[i]) == Neg(Vector(heading));
    }
    forall i, j | 0 <= i < j < |body| ensures body[i] != body[j] {
      assert Progress(body[i], Vector(heading)) > Progress(body[j], Vector(heading));
    }
  }

  /** The body after Move: the head advances by v and every other segment
      takes its predecessor's cell; an empty body stays empty. */
  function Advance(body: seq<Cell>, v: Cell): (r: seq<Cell>)
    ensures |r| == |body|
    ensures |body| > 0 ==> r[0] == Add(body[0], v)
    ensures forall i :: 0 < i < |r| ==> r[i] == body[i - 1]
  {
    if |body| == 0 then body else [Add(body[0], v)] + body[..|body| - 1]
  }

  /** Move keeps a connected snake connected and drops only the old tail
      cell: the cells after the head are the old cells minus the tail. */
  lemma AdvanceConnected(body: seq<Cell>, v: Cell)
    requires Connected(body) && IsUnit(v)
    ensures Connected(Advance(body, v))
    ensures |body| > 0 ==> Advance(body, v)[1..] == body[..|body| - 1]
  {
    var r := Advance(body, v);
    forall i | 0 <= i < |r| - 1 ensures Adjacent(r[i], r[i + 1]) {
      if i == 0 {
        assert Sub(r[1], r[0]) == Neg(v);
      } else {
        assert r[i] == body[i - 1] && r[i + 1] == body[i];
      }
    }
  }

  /** Which turn HandleInput takes for the arrow keys pressed this frame:
      the first of Up, Down, Left, Right that is pressed and does not reverse
      the heading, or none. */
  function Chosen(pressed: set<Direction>, heading: Direction): (r: Option<Direction>)
    ensures r.Some? ==> r.value in pressed && r.value != Opposite(heading)
  {
    if Up in pressed && heading != Down then Some(Up)
    else if Down in pressed && heading != Up then Some(Down)
    else if Left in pressed && heading != Right then Some(Left)
    else if Right in pressed && heading != Left then Some(Right)
    else None
  }

  /** Position of a key in HandleInput's else-if chain. */
  function Rank(d: Direction): nat {
    match d
    case Up => 0
    case Down => 1
    case Left => 2
    case Right => 3
  }

  /** A key is ignored only when it would reverse the heading: the chain
      takes no turn exactly when every pressed key is the reversing one. */
  lemma ChosenNoneIff(pressed: set<Direction>, heading: Direction)
    ensures Chosen(pressed, heading).None? <==> pressed <= {Opposite(heading)}
  {
    if Chosen(pressed, heading).None? {
      forall e | e in pressed ensures e == Opposite(heading) {
        match e
        case Up =>
        case Down =>
        case Left =>
        case Right =>
      }
    }
  }

  /** The else-if chain makes the earliest eligible key win, a lone key
      that does not reverse the heading is taken, and a lone reversing key
      is ignored. */
  lemma ChosenPriority(pressed: set<Direction>, heading: Direction, e: Direction)
    requires e in pressed && e != Opposite(heading)
    ensures Chosen(pressed, heading).Some?
    ensures Rank(Chosen(pressed, heading).value) <= Rank(e)
    ensures Chosen({e}, heading) == Some(e)
    ensures Chosen({Opposite(heading)}, heading) == None
  {
    ChosenNoneIff(pressed, heading);
  }

  class SnakeController {
    var snakeSegments: seq<Cell>
    var currentDirection: Direction

    /** Awake: an empty body; the heading is the enum's default, Up. */
    constructor ()
      ensures snakeSegments == [] && currentDirection == Up
    {
      snakeSegments := [];
      currentDirection := Up;
    }

    method Initialize(levelData: LevelData)
      modifies this
      ensures currentDirection == levelData.initialDirection
      ensures snakeSegments ==
        StraightSnake(levelData.snakeStartPosition, levelData.initialDirection, levelData.initialSnakeLength)
    {
      currentDirection := levelData.initialDirection;
      snakeSegments := [];
      var currentPosition := levelData.snakeStartPosition;
      var i := 0;
      while i < levelData.initialSnakeLength
        invariant 0 <= i && (i == 0 || i <= levelData.initialSnakeLength)
        invariant currentDirection == levelData.initialDirection
        invariant snakeSegments == StraightSnake(levelData.snakeStartPosition, currentDirection, i)
        invariant currentPosition == Behind(levelData.snakeStartPosition, currentDirection, i)
      {
        snakeSegments := snakeSegments + [currentPosition];
        currentPosition := Sub(currentPosition, Vector(currentDirection));
        i := i + 1;
      }
    }

    /** Turn and move for the keys pressed this frame; at most one turn and
        one move happen, and a reversing key does nothing. */
    method HandleInput(pressed: set<Direction>)
      modifies this
      ensures Chosen(pressed, old(currentDirection)).None? ==>
        currentDirection == old(currentDirection) && snakeSegments == old(snakeSegments)
      ensures Chosen(pressed, old(currentDirection)).Some? ==>
        currentDirection == Chosen(pressed, old(currentDirection)).value &&
        snakeSegments == Advance(old(snakeSegments), Vector(currentDirection))
    {
      if Up in pressed && currentDirection != Down {
        currentDirection := Up;
        Move();
      } else if Down in pressed && currentDirection != Up {
        currentDirection := Down;
        Move();
      } else if Left in pressed && currentDirection != Right {
        currentDirection := Left;
        Move();
      } else if Right in pressed && currentDirection != Left {
        currentDirection := Right;
        Move();
      }
    }

    /** Shift the body in place, from the tail forward, then place the head
        one step along the heading. */
    method Move()
      modifies this`snakeSegments
      ensures snakeSegments == Advance(old(snakeSegments), Vector(currentDirection))
    {
      if |snakeSegments| == 0 {
        return;
      }
      var nextHeadPosition := Add(snakeSegments[0], Vector(currentDirection));
      var i := |snakeSegments| - 1;
      while i > 0
        invariant 0 <= i < |snakeSegments| == |old(snakeSegments)|
        invariant forall k :: 0 <= k <= i ==> snakeSegments[k] == old(snakeSegments)[k]
        invariant forall k :: i < k < |snakeSegments| ==> snakeSegments[k] == old(snakeSegments)[k - 1]
      {
        snakeSegments := snakeSegments[i := snakeSegments[i - 1]];
        i := i - 1;
      }
      snakeSegments := snakeSegments[0 := nextHeadPosition];
    }
  }
}
