/** The tutor component's state and handlers: the loaded move list, the replay index, the
    playing flag and the autoplay interval, plus the board it draws for the current index. */
module Tutor {
  import opened Board
  import opened Navigation

  /** `a` holds exactly the cells of the well-formed board `g`. */
  ghost predicate Holds(a: array2<string>, g: Grid)
    reads a
  {
    a.Length0 == Rows && a.Length1 == Cols && WellFormed(g) &&
    forall r, c :: 0 <= r < Rows && 0 <= c < Cols ==> a[r, c] == g[r][c]
  }

  class XiangqiTutor {
    /** The starting grid; the component builds it once and never writes to it. */
    const initialBoard: array2<string>
    var moves: seq<Move>
    var currentMoveIndex: int
    var isPlaying: bool
    /** Whether an autoplay interval is currently scheduled. */
    var intervalActive: bool

    function State(): Playback
      reads this
    {
      Playback(currentMoveIndex, isPlaying, intervalActive)
    }

    ghost predicate Valid()
      reads this, initialBoard
    {
      Holds(initialBoard, InitialLayout()) && AllColumnsModelled(moves) && Inv(State(), |moves|)
    }

    constructor ()
      ensures Valid() && fresh(initialBoard)
      ensures moves == [] && State() == Start
    {
      var layout := InitialLayout();
      initialBoard := new string[Rows, Cols]((r, c) =>
        if 0 <= r < Rows && 0 <= c < Cols then layout[r][c] else "");
      moves := [];
      currentMoveIndex := 0;
      isPlaying := false;
      intervalActive := false;
    }

    /** A new move list replaces the old one and the index goes back to 0. */
    method LoadMoves(ms: seq<Move>)
      requires Valid() && AllColumnsModelled(ms)
      modifies this
      ensures Valid() && moves == ms
      ensures State() == Load(old(State()))
    {
      moves := ms;
      currentMoveIndex := 0;
    }

    method PlayAnimation()
      requires Valid()
      modifies this
      ensures Valid() && moves == old(moves)
      ensures State() == TogglePlay(old(State()))
    {
      if isPlaying {
        isPlaying := false;
        intervalActive := false;
        return;
      }
      isPlaying := true;
      intervalActive := true;
    }

    /** One firing of the autoplay interval; it only fires while scheduled. */
    method IntervalTick()
      requires Valid() && intervalActive
      modifies this
      ensures Valid() && moves == old(moves)
      ensures State() == Tick(old(State()), |moves|)
    {
      if currentMoveIndex >= |moves| - 1 {
        isPlaying := false;
        intervalActive := false;
      } else {
        currentMoveIndex := currentMoveIndex + 1;
      }
    }

    method ResetBoard()
      requires Valid()
      modifies this
      ensures Valid() && moves == old(moves)
      ensures State() == Reset(old(State()))
    {
      currentMoveIndex := 0;
      isPlaying := false;
      intervalActive := false;
    }

    method NextMove()
      requires Valid()
      modifies this
      ensures Valid() && moves == old(moves)
      ensures State() == Next(old(State()), |moves|)
    {
      if currentMoveIndex < |moves| - 1 {
        currentMoveIndex := currentMoveIndex + 1;
      }
    }

    method PrevMove()
      requires Valid()
      modifies this
      ensures Valid() && moves == old(moves)
      ensures State() == Prev(old(State()))
    {
      if currentMoveIndex > 0 {
        currentMoveIndex := currentMoveIndex - 1;
      }
    }

    /** The move list offers a jump to each of its own indices and to nothing else. */
    method JumpToMove(moveIndex: int)
      requires Valid() && 0 <= moveIndex < |moves|
      modifies this
      ensures Valid() && moves == old(moves)
      ensures State() == JumpTo(old(State()), moveIndex)
    {
      currentMoveIndex := moveIndex;
      isPlaying := false;
      intervalActive := false;
    }

    /** displayBoard: a fresh row-wise copy of the starting grid with the first
        `currentMoveIndex` moves replayed on it; the starting grid itself is left untouched. */
    method DisplayBoard() returns (board: array2<string>)
      requires Valid()
      ensures fresh(board)
      ensures Holds(board, Replay(InitialLayout(), moves, currentMoveIndex))
      ensures Holds(initialBoard, InitialLayout())
    {
      var init := initialBoard;
      board := new string[Rows, Cols]((r, c) reads init =>
        if 0 <= r < init.Length0 && 0 <= c < init.Length1 then init[r, c] else "");
      assert Holds(board, InitialLayout());
      for i := 0 to currentMoveIndex
        invariant Holds(board, Replay(InitialLayout(), moves, i))
      {
        ghost var before := Replay(InitialLayout(), moves, i);
        if i < |moves| {
          StepInPlace(board, moves[i], before);
        }
        ReplayStep(InitialLayout(), moves, i);
      }
    }
  }

  /** One pass of the replay loop's body on the board being built: when both rows pass the
      guard, the glyph on `from` is lifted and written on `to`. */
  method StepInPlace(board: array2<string>, m: Move, ghost g: Grid)
    requires Holds(board, g) && ColumnsModelled(m)
    modifies board
    ensures Holds(board, ApplyMove(g, m))
  {
    if 0 <= m.from.row < Rows && 0 <= m.to.row < Rows {
      var piece := board[m.from.row, m.from.col];
      board[m.from.row, m.from.col] := "";
      board[m.to.row, m.to.col] := piece;
    }
  }

  /** Because the index never passes the last move's index, the drawn board never includes
      the last move: dropping it from the list changes nothing the tutor can show. */
  lemma {:induction false} DisplayOmitsLastMove(moves: seq<Move>, p: Playback)
    requires AllColumnsModelled(moves) && |moves| > 0 && Inv(p, |moves|)
    ensures Replay(InitialLayout(), moves, p.index) ==
      Replay(InitialLayout(), moves[..|moves| - 1], p.index)
  {
    ReplayUsesPrefix(InitialLayout(), moves, p.index, |moves| - 1);
  }
}
