/** Concrete replays over the starting position, using the move list the tutor loads on mount. */
module Scenarios {
  import opened Board
  import opened Navigation

  /** The six opening moves the component loads on mount (central cannon against screen horses). */
  function MockMoves(): (ms: seq<Move>)
    ensures |ms| == 6 && AllColumnsModelled(ms)
  {
    [ Move("炮二平五", Coord(7, 1), Coord(7, 4), "炮"),
      Move("馬8進7", Coord(0, 7), Coord(2, 6), "馬"),
      Move("马二进三", Coord(9, 7), Coord(7, 6), "马"),
      Move("車9平8", Coord(0, 8), Coord(0, 7), "車"),
      Move("车一平二", Coord(9, 8), Coord(9, 7), "车"),
      Move("砲8平5", Coord(2, 7), Coord(2, 4), "砲") ]
  }

  /** Replaying the single move 炮二平五 empties [7, 1], puts the red cannon on [7, 4] and leaves
      the other 88 squares as they started. */
  lemma CentralCannonOpening()
    ensures var b := Replay(InitialLayout(), MockMoves()[..1], 1);
      b[7][1] == "" && b[7][4] == "炮" &&
      forall r, c :: 0 <= r < Rows && 0 <= c < Cols && Coord(r, c) != Coord(7, 1) && Coord(r, c) != Coord(7, 4) ==>
        b[r][c] == InitialLayout()[r][c]
  {
  }

  /** The sixth mock move brings the black cannon to [2, 4], but no index the controls can reach
      shows it there: the square stays empty at every index from 0 to LastIndex(6). */
  lemma {:induction false} MockCannonNeverDrawn(i: nat)
    requires i <= LastIndex(|MockMoves()|)
    ensures Replay(InitialLayout(), MockMoves(), i)[2][4] == ""
    ensures Replay(InitialLayout(), MockMoves(), |MockMoves()|)[2][4] == "砲"
  {
    var ms := MockMoves();
    var init := InitialLayout();
    ReplayFrame(init, ms, i, Coord(2, 4));
    ReplayFrame(init, ms, 5, Coord(2, 7));
    ReplayStep(init, ms, 5);
  }
}
