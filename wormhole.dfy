/** The level exit of Assets/Scripts/Wormhole.cs: a fixed cell and an active
    flag. Initialize records the cell and closes the wormhole, Activate opens
    it; the two queries read the fields. */
module Wormholes {
  import opened Grid

  datatype WormholeState = WormholeState(gridPosition: Cell, isActive: bool)

  datatype Call = Initialize(position: Cell) | Activate

  /** The state after one call. */
  function Apply(s: WormholeState, call: Call): (r: WormholeState)
    ensures call.Activate? ==> r.isActive && r.gridPosition == s.gridPosition
    ensures call.Initialize? ==> !r.isActive && r.gridPosition == call.position
  {
    match call
    case Initialize(p) => WormholeState(p, false)
    case Activate => s.(isActive := true)
  }

  /** The state after a sequence of calls, in order. */
  function Replay(s: WormholeState, calls: seq<Call>): WormholeState
    decreases |calls|
  {
    if |calls| == 0 then s else Apply(Replay(s, calls[..|calls| - 1]), calls[|calls| - 1])
  }

  /** The cell given to the last Initialize in `calls`, if any. */
  function LastInitialized(calls: seq<Call>): Option<Cell>
    decreases |calls|
  {
    if |calls| == 0 then None
    else if calls[|calls| - 1].Initialize? then Some(calls[|calls| - 1].position)
    else LastInitialized(calls[..|calls| - 1])
  }

  /** Activate is idempotent. */
  lemma ActivateIdempotent(s: WormholeState)
    ensures Apply(Apply(s, Activate), Activate) == Apply(s, Activate)
  {
  }

  /** Only Initialize clears the flag: an open wormhole stays open through
      any sequence of calls without an Initialize. */
  lemma OnlyInitializeCloses(s: WormholeState, calls: seq<Call>)
    requires s.isActive
    requires forall i :: 0 <= i < |calls| ==> calls[i].Activate?
    ensures Replay(s, calls).isActive
  {
  }

  /** The recorded cell is the one given to the last Initialize (or the
      starting one when there was none): Activate never moves it. */
  lemma {:induction false} PositionIsLastInitialized(s: WormholeState, calls: seq<Call>)
    ensures Replay(s, calls).gridPosition ==
      match LastInitialized(calls)
      case Some(p) => p
      case None => s.gridPosition
    decreases |calls|
  {
    if |calls| > 0 {
      PositionIsLastInitialized(s, calls[..|calls| - 1]);
    }
  }

  class Wormhole {
    var isActive: bool
    var gridPosition: Cell

    /** A new wormhole is closed; its cell is Vector2Int's default. */
    constructor ()
      ensures !isActive && gridPosition == Zero
    {
      isActive := false;
      gridPosition := Zero;
    }

    function State(): WormholeState
      reads this
    {
      WormholeState(gridPosition, isActive)
    }

    method Initialize(position: Cell)
      modifies this
      ensures !IsActive() && IsAtPosition(position)
      ensures forall q :: IsAtPosition(q) <==> q == position
      ensures State() == Apply(old(State()), Call.Initialize(position))
    {
      gridPosition := position;
      isActive := false;
    }

    method Activate()
      modifies this
      ensures IsActive() && forall q :: IsAtPosition(q) <==> old(IsAtPosition(q))
      ensures State() == Apply(old(State()), Call.Activate)
    {
      isActive := true;
    }

    /** Whether the exit sits at `position`, as the call history left it. */
    function IsAtPosition(position: Cell): (r: bool)
      reads this
      ensures r <==> State().gridPosition == position
    {
      gridPosition == position
    }

    /** Whether the exit is open, as the call history left it. */
    function IsActive(): (r: bool)
      reads this
      ensures r == State().isActive
    {
      isActive
    }
  }
}
