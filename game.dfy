/** The level status of Assets/Scripts/GameManager.cs: Playing, LevelWon or
    LevelLost. Winning and losing only take effect while playing; starting a
    level always returns to Playing. */
module Game {

  datatype GameStatus = Playing | LevelWon | LevelLost

  /** The three operations that change the status. */
  datatype Call = StartLevel | WinLevel | LoseLevel

  /** The status after one call. */
  function Next(s: GameStatus, call: Call): (r: GameStatus)
    ensures call == StartLevel ==> r == Playing
    ensures call != StartLevel && s != Playing ==> r == s
  {
    match call
    case StartLevel => Playing
    case WinLevel => if s == Playing then LevelWon else s
    case LoseLevel => if s == Playing then LevelLost else s
  }

  /** The status after a sequence of calls, in order. */
  function Replay(s: GameStatus, calls: seq<Call>): GameStatus
    decreases |calls|
  {
    if |calls| == 0 then s else Next(Replay(s, calls[..|calls| - 1]), calls[|calls| - 1])
  }

  /** A won or lost level stays so through any number of WinLevel and
      LoseLevel calls; only StartLevel leaves it. */
  lemma {:induction false} TerminalAbsorbs(s: GameStatus, calls: seq<Call>)
    requires s != Playing
    requires forall i :: 0 <= i < |calls| ==> calls[i] != StartLevel
    ensures Replay(s, calls) == s
    decreases |calls|
  {
    if |calls| > 0 {
      TerminalAbsorbs(s, calls[..|calls| - 1]);
    }
  }

  /** After the first WinLevel or LoseLevel that takes effect, the status is
      decided until the next StartLevel: from Playing, a sequence of win and
      lose calls ends in the outcome of its first call. */
  lemma {:induction false} FirstOutcomeSticks(calls: seq<Call>)
    requires |calls| > 0
    requires forall i :: 0 <= i < |calls| ==> calls[i] != StartLevel
    ensures Replay(Playing, calls) == if calls[0] == WinLevel then LevelWon else LevelLost
    decreases |calls|
  {
    if |calls| == 1 {
      assert calls[..0] == [];
    } else {
      FirstOutcomeSticks(calls[..|calls| - 1]);
    }
  }

  /** A StartLevel resets the status whatever came before it. */
  lemma {:induction false} StartLevelResets(s: GameStatus, before: seq<Call>, after: seq<Call>)
    ensures Replay(s, before + [StartLevel] + after) == Replay(Playing, after)
    decreases |after|
  {
    if |after| == 0 {
      assert before + [StartLevel] + after == before + [StartLevel];
      assert (before + [StartLevel])[..|before|] == before;
    } else {
      var all := before + [StartLevel] + after;
      StartLevelResets(s, before, after[..|after| - 1]);
      assert all[..|all| - 1] == before + [StartLevel] + after[..|after| - 1];
    }
  }

  class GameManager {
    var CurrentStatus: GameStatus

    /** Before any call the status is the enum's default, Playing. */
    constructor ()
      ensures CurrentStatus == Playing
    {
      CurrentStatus := Playing;
    }

    method StartLevel()
      modifies this
      ensures CurrentStatus == Playing
      ensures CurrentStatus == Next(old(CurrentStatus), Call.StartLevel)
    {
      CurrentStatus := Playing;
    }

    method WinLevel()
      modifies this
      ensures old(CurrentStatus) == Playing ==> CurrentStatus == LevelWon
      ensures old(CurrentStatus) != Playing ==> CurrentStatus == old(CurrentStatus)
      ensures CurrentStatus == Next(old(CurrentStatus), Call.WinLevel)
    {
      if CurrentStatus != Playing {
        return;
      }
      CurrentStatus := LevelWon;
    }

    method LoseLevel()
      modifies this
      ensures old(CurrentStatus) == Playing ==> CurrentStatus == LevelLost
      ensures old(CurrentStatus) != Playing ==> CurrentStatus == old(CurrentStatus)
      ensures CurrentStatus == Next(old(CurrentStatus), Call.LoseLevel)
    {
      if CurrentStatus != Playing {
        return;
      }
      CurrentStatus := LevelLost;
    }
  }
}
