/** The chained push of Assets/Scripts/FoodItem.cs.

    A food item pushed one cell along a vector fails when that cell is a
    wall; when another food sits there it first pushes that food the same
    way, and moves itself only if that push succeeded. The level services
    the push calls (IsWallAt, GetFoodAt, UpdateFoodPosition) are an abstract
    wall predicate and a cell-to-food occupancy map held by FoodBoard.

    The specification is given by three functions over the occupancy map:
    Run (the contiguous run of occupied cells the push reaches), ChainClear
    (whether the recursion succeeds) and Shift (the map after a successful
    push). The lemmas tie them to each other: the push succeeds exactly when
    no cell one step past a member of the run is a wall, and then every
    member of the run moves one step while every other food stays put. */
module FoodItems {
  import opened Grid

  /** The occupied cells strictly further than p along d. The recursion of
      Push runs on foods in this set, so it shrinks with every call. */
  function Ahead(keys: set<Cell>, p: Cell, d: Cell): set<Cell> {
    set c | c in keys && Progress(c, d) > Progress(p, d)
  }

  lemma AheadShrinks(keys: set<Cell>, p: Cell, d: Cell)
    requires d != Zero && Add(p, d) in keys
    ensures Ahead(keys, Add(p, d), d) < Ahead(keys, p, d)
    ensures |Ahead(keys, Add(p, d), d)| < |Ahead(keys, p, d)|
  {
    var q := Add(p, d);
    ProgressStep(p, d);
    var big, small := Ahead(keys, p, d), Ahead(keys, q, d);
    assert q in big && q !in small;
    assert small <= big - {q};
    SubsetSize(small, big - {q});
  }

  lemma SubsetSize<T>(a: set<T>, b: set<T>)
    requires a <= b
    ensures |a| <= |b|
  {
    assert b == a + (b - a);
  }

  /** The run a push from p along d reaches: p, then each further cell one
      step on for as long as it is occupied. */
  function Run(keys: set<Cell>, p: Cell, d: Cell): (run: seq<Cell>)
    requires d != Zero
    ensures |run| >= 1 && run[0] == p
    decreases Ahead(keys, p, d)
  {
    var q := Add(p, d);
    if q in keys then
      AheadShrinks(keys, p, d);
      [p] + Run(keys, q, d)
    else
      [p]
  }

  function Last(run: seq<Cell>): Cell
    requires |run| > 0
  {
    run[|run| - 1]
  }

  /** Each member after the first is occupied and one step past its
      predecessor. */
  predicate Contiguous(keys: set<Cell>, run: seq<Cell>, d: Cell) {
    forall i :: 0 < i < |run| ==> run[i] in keys && run[i] == Add(run[i - 1], d)
  }

  /** Every member after the first lies strictly further along d than p. */
  predicate BeyondStart(run: seq<Cell>, p: Cell, d: Cell) {
    forall i :: 0 < i < |run| ==> Progress(run[i], d) > Progress(p, d)
  }

  /** The run is contiguous and maximal (the cell one step past its last
      member is free), and no member after the first can be p again. */
  lemma {:induction false} RunShape(keys: set<Cell>, p: Cell, d: Cell)
    requires d != Zero
    ensures Contiguous(keys, Run(keys, p, d), d)
    ensures Add(Last(Run(keys, p, d)), d) !in keys
    ensures BeyondStart(Run(keys, p, d), p, d)
    ensures Progress(Add(Last(Run(keys, p, d)), d), d) > Progress(p, d)
    decreases Ahead(keys, p, d)
  {
    var q := Add(p, d);
    ProgressStep(p, d);
    if q in keys {
      AheadShrinks(keys, p, d);
      RunShape(keys, q, d);
      var run, rest := Run(keys, p, d), Run(keys, q, d);
      assert run == [p] + rest;
      assert Last(run) == Last(rest);
      forall i | 0 < i < |run|
        ensures run[i] in keys && run[i] == Add(run[i - 1], d) && Progress(run[i], d) > Progress(p, d)
      {
        assert run[i] == rest[i - 1];
      }
    } else {
      assert Run(keys, p, d) == [p];
    }
  }

  lemma {:induction false} RunWithinAhead(keys: set<Cell>, p: Cell, d: Cell)
    requires d != Zero
    ensures |Run(keys, p, d)| <= |Ahead(keys, p, d)| + 1
    decreases Ahead(keys, p, d)
  {
    var q := Add(p, d);
    if q in keys {
      AheadShrinks(keys, p, d);
      RunWithinAhead(keys, q, d);
      assert Run(keys, p, d) == [p] + Run(keys, q, d);
    }
  }

  /** The recursion depth of Push is bounded by the number of foods. */
  lemma RunBounded(keys: set<Cell>, p: Cell, d: Cell)
    requires d != Zero && p in keys
    ensures |Run(keys, p, d)| <= |keys|
  {
    RunWithinAhead(keys, p, d);
    SubsetSize(Ahead(keys, p, d), keys - {p});
  }

  /** Whether Push from p along d returns true: the next cell is not a wall,
      and when it holds a food, pushing that food succeeds. */
  function ChainClear(isWall: Cell -> bool, keys: set<Cell>, p: Cell, d: Cell): (ok: bool)
    requires d != Zero
    ensures ok ==> !isWall(Add(p, d))
    ensures ok ==> !isWall(Add(Last(Run(keys, p, d)), d))
    decreases Ahead(keys, p, d)
  {
    var q := Add(p, d);
    if isWall(q) then false
    else if q in keys then
      AheadShrinks(keys, p, d);
      ChainClear(isWall, keys, q, d)
    else true
  }

  /** No member of the run would step onto a wall. */
  predicate RunUnblocked(isWall: Cell -> bool, run: seq<Cell>, d: Cell) {
    forall i :: 0 <= i < |run| ==> !isWall(Add(run[i], d))
  }

  /** The push succeeds exactly when no member of the run would step onto a
      wall; a single wall anywhere ahead of the run makes it fail. */
  lemma {:induction false} ChainClearIff(isWall: Cell -> bool, keys: set<Cell>, p: Cell, d: Cell)
    requires d != Zero
    ensures ChainClear(isWall, keys, p, d) <==> RunUnblocked(isWall, Run(keys, p, d), d)
    decreases Ahead(keys, p, d)
  {
    var q := Add(p, d);
    var run := Run(keys, p, d);
    if q in keys {
      AheadShrinks(keys, p, d);
      ChainClearIff(isWall, keys, q, d);
      var rest := Run(keys, q, d);
      assert run == [p] + rest;
      assert ChainClear(isWall, keys, p, d) == (!isWall(q) && ChainClear(isWall, keys, q, d));
      if !isWall(q) && RunUnblocked(isWall, rest, d) {
        forall i | 0 <= i < |run| ensures !isWall(Add(run[i], d)) {
          if i > 0 {
            assert run[i] == rest[i - 1];
          }
        }
      }
      if RunUnblocked(isWall, run, d) {
        assert !isWall(Add(run[0], d));
        forall i | 0 <= i < |rest| ensures !isWall(Add(rest[i], d)) {
          assert rest[i] == run[i + 1];
        }
      }
    } else {
      assert run == [p];
      assert ChainClear(isWall, keys, p, d) == !isWall(q);
      assert RunUnblocked(isWall, run, d) <==> !isWall(Add(run[0], d));
    }
  }

  /** UpdateFoodPosition: the entry at `from`, when there is one, moves to
      `to`; every other entry keeps its cell. */
  function Move<V(==)>(m: map<Cell, V>, from: Cell, to: Cell): (r: map<Cell, V>)
    ensures from in m ==> r.Keys == m.Keys - {from} + {to} && r[to] == m[from]
    ensures from !in m ==> r == m
    ensures forall c :: c in m && c != from && c != to ==> c in r && r[c] == m[c]
    ensures r.Values <= m.Values
  {
    if from in m then (m - {from})[to := m[from]] else m
  }

  /** The occupancy map after a successful push from p along d: the food
      ahead is moved first, then the entry at p moves one step. */
  function Shift<V(==)>(m: map<Cell, V>, p: Cell, d: Cell): (r: map<Cell, V>)
    requires d != Zero
    ensures p !in r
    ensures r.Values <= m.Values
    decreases Ahead(m.Keys, p, d)
  {
    var q := Add(p, d);
    var vacated :=
      if q in m then
        AheadShrinks(m.Keys, p, d);
        Shift(m, q, d)
      else m;
    Move(vacated, p, q)
  }

  /** Each member of the run now holds, one step further along d, the food
      it held before. */
  ghost predicate RunMovedOneStep<V>(m: map<Cell, V>, r: map<Cell, V>, run: seq<Cell>, d: Cell) {
    forall i :: 0 <= i < |run| ==> run[i] in m && Add(run[i], d) in r && r[Add(run[i], d)] == m[run[i]]
  }

  /** Every occupied cell outside the run keeps its food. */
  ghost predicate OthersStay<V>(m: map<Cell, V>, r: map<Cell, V>, run: seq<Cell>) {
    forall c :: c in m && c !in run ==> c in r && r[c] == m[c]
  }

  /** What a successful push does to the occupancy map: the first cell of
      the run is vacated and the cell one step past the last is taken, each
      food of the run now sits exactly one step further along d, and every
      food outside the run keeps its cell. */
  lemma {:induction false} ShiftSpec<V>(m: map<Cell, V>, p: Cell, d: Cell)
    requires d != Zero && p in m
    ensures Shift(m, p, d).Keys == m.Keys - {p} + {Add(Last(Run(m.Keys, p, d)), d)}
    ensures RunMovedOneStep(m, Shift(m, p, d), Run(m.Keys, p, d), d)
    ensures OthersStay(m, Shift(m, p, d), Run(m.Keys, p, d))
    decreases Ahead(m.Keys, p, d)
  {
    var q := Add(p, d);
    var run, r := Run(m.Keys, p, d), Shift(m, p, d);
    if q in m {
      AheadShrinks(m.Keys, p, d);
      ShiftSpec(m, q, d);
      RunShape(m.Keys, q, d);
      ProgressStep(p, d);
      var rest, m1 := Run(m.Keys, q, d), Shift(m, q, d);
      assert run == [p] + rest;
      assert Last(run) == Last(rest);
      assert r == Move(m1, p, q);
      forall i | 0 <= i < |rest| ensures rest[i] != p && Add(rest[i], d) != p {
        if i > 0 { assert Progress(rest[i], d) > Progress(q, d); }
        ProgressStep(rest[i], d);
      }
      assert Add(Last(rest), d) != p;
      assert p in m1 && m1[p] == m[p];
      forall i | 0 <= i < |run|
        ensures run[i] in m && Add(run[i], d) in r && r[Add(run[i], d)] == m[run[i]]
      {
        if i > 0 {
          assert run[i] == rest[i - 1];
        }
      }
      forall c | c in m && c !in run ensures c in r && r[c] == m[c] {
        assert c !in rest && c != p;
      }
    } else {
      assert run == [p];
      assert r == Move(m, p, q);
    }
  }

  /** A push neither loses nor adds a food: the map keeps its size. */
  lemma ShiftKeepsCount<V>(m: map<Cell, V>, p: Cell, d: Cell)
    requires d != Zero && p in m
    ensures |Shift(m, p, d)| == |m|
  {
    ShiftSpec(m, p, d);
    RunShape(m.Keys, p, d);
    var last := Add(Last(Run(m.Keys, p, d)), d);
    assert |m.Keys - {p}| == |m.Keys| - 1;
    assert |Shift(m, p, d).Keys| == |m.Keys|;
  }

  /** A push keeps exactly the same foods on the board. */
  lemma ShiftKeepsFoods<V>(m: map<Cell, V>, p: Cell, d: Cell)
    requires d != Zero && p in m
    ensures Shift(m, p, d).Values == m.Values
  {
    var run, r := Run(m.Keys, p, d), Shift(m, p, d);
    ShiftSpec(m, p, d);
    RunShape(m.Keys, p, d);
    forall v | v in m.Values ensures v in r.Values {
      var c :| c in m && m[c] == v;
      if c in run {
        var i :| 0 <= i < |run| && run[i] == c;
        assert r[Add(run[i], d)] == v;
      } else {
        assert r[c] == v;
      }
    }
    forall v | v in r.Values ensures v in m.Values {
      var c :| c in r && r[c] == v;
      if c == Add(Last(run), d) {
        assert r[Add(run[|run| - 1], d)] == m[run[|run| - 1]];
      } else if c in run {
        assert c != p;
        var i :| 0 <= i < |run| && run[i] == c;
        assert r[Add(run[i - 1], d)] == m[run[i - 1]];
      } else {
        assert r[c] == m[c];
      }
    }
  }

  /** One level of the recursion: pushing from p first pushes the food one
      step ahead (if any) and then moves p's entry; the entry at p is not
      touched by the inner push. */
  lemma ShiftUnfold<V>(m: map<Cell, V>, p: Cell, d: Cell)
    requires d != Zero && p in m
    ensures Add(p, d) in m ==>
      p in Shift(m, Add(p, d), d) && Shift(m, Add(p, d), d)[p] == m[p] &&
      Shift(m, p, d) == Move(Shift(m, Add(p, d), d), p, Add(p, d))
    ensures Add(p, d) !in m ==> Shift(m, p, d) == Move(m, p, Add(p, d))
  {
    var q := Add(p, d);
    if q in m {
      AheadShrinks(m.Keys, p, d);
      ShiftSpec(m, q, d);
      RunShape(m.Keys, q, d);
      ProgressStep(p, d);
      assert p !in Run(m.Keys, q, d);
    }
  }

  lemma ChainClearUnfold(isWall: Cell -> bool, keys: set<Cell>, p: Cell, d: Cell)
    requires d != Zero
    ensures ChainClear(isWall, keys, p, d) ==
      (!isWall(Add(p, d)) && (Add(p, d) in keys ==> ChainClear(isWall, keys, Add(p, d), d)))
  {
  }

  /** The part of the level that a food item calls: the wall predicate and
      the cell-to-food occupancy index. */
  class FoodBoard {
    var isWall: Cell -> bool
    var foods: map<Cell, FoodItem>

    /** Every indexed food records the cell it is indexed under and belongs
        to this board; so no two cells share a food. */
    ghost predicate Valid()
      reads this, foods.Values
    {
      forall c :: c in foods ==> foods[c].gridPosition == c && foods[c].board == this
    }

    constructor (isWall: Cell -> bool)
      ensures this.isWall == isWall && foods == map[]
      ensures Valid()
    {
      this.isWall := isWall;
      foods := map[];
    }

    /** The level's wall query; the wall layout itself is not modelled. */
    function IsWallAt(c: Cell): (r: bool)
      reads this
      ensures r == isWall(c)
    {
      isWall(c)
    }

    /** The food indexed at c, if any; on a consistent board it is a food of
        this board that records c as its own cell. */
    function GetFoodAt(c: Cell): (r: Option<FoodItem>)
      reads this, foods.Values
      ensures r.Some? <==> c in foods
      ensures Valid() && r.Some? ==> r.value.gridPosition == c && r.value.board == this
    {
      if c in foods then Some(foods[c]) else None
    }

    method UpdateFoodPosition(from: Cell, to: Cell)
      modifies this`foods
      ensures foods == Move(old(foods), from, to)
    {
      foods := Move(foods, from, to);
    }
  }

  class FoodItem {
    var gridPosition: Cell
    var foodType: FoodType
    const board: FoodBoard

    /** Initialize: records the cell, the kind and the board; it does not
        index itself on the board. */
    constructor Initialize(startPosition: Cell, foodType: FoodType, board: FoodBoard)
      ensures gridPosition == startPosition && this.foodType == foodType && this.board == board
    {
      gridPosition := startPosition;
      this.foodType := foodType;
      this.board := board;
    }

    /** Push one step along `direction`. Returns whether this food moved; the
        wall predicate is never changed. */
    method Push(direction: Cell) returns (ok: bool)
      requires direction != Zero
      requires board.Valid() && gridPosition in board.foods && board.foods[gridPosition] == this
      modifies board`foods, board.foods.Values`gridPosition
      ensures board.Valid() && board.isWall == old(board.isWall)
      ensures ok == ChainClear(board.isWall, old(board.foods).Keys, old(gridPosition), direction)
      ensures board.foods == if ok then Shift(old(board.foods), old(gridPosition), direction) else old(board.foods)
      ensures gridPosition == if ok then Add(old(gridPosition), direction) else old(gridPosition)
      decreases Ahead(board.foods.Keys, gridPosition, direction)
    {
      ghost var m0, p := board.foods, gridPosition;
      var nextPosition := Add(gridPosition, direction);
      ChainClearUnfold(board.isWall, m0.Keys, p, direction);
      ShiftUnfold(m0, p, direction);
      if board.IsWallAt(nextPosition) {
        return false;
      }
      var foodInNextPos := board.GetFoodAt(nextPosition);
      if foodInNextPos.Some? {
        AheadShrinks(m0.Keys, p, direction);
        var nextFoodPushed := foodInNextPos.value.Push(direction);
        if !nextFoodPushed {
          return false;
        }
        assert board.foods[p] == this;
      }
      ghost var m1 := board.foods;
      board.UpdateFoodPosition(gridPosition, nextPosition);
      gridPosition := nextPosition;
      forall c | c in board.foods
        ensures board.foods[c].gridPosition == c && board.foods[c].board == board
      {
        if c != nextPosition {
          assert m1[c].gridPosition == c;
        }
      }
      return true;
    }
  }
}
