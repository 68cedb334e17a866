/** The 10 x 9 board of the tutor, its starting layout, and the replay of a move list over it. */
module Board {
  import opened Pieces

  const Rows: nat := 10
  const Cols: nat := 9

  /** A [row, column] pair as a move record carries it. The tutor's replay does not range-check these. */
  datatype Coord = Coord(row: int, col: int)

  /** A move record: its display notation, source and destination squares, and the glyph the
      record claims to move. The replay never reads `notation` or `piece`. */
  datatype Move = Move(notation: string, from: Coord, to: Coord, piece: string)

  /** A board: rows of cells, each cell a glyph or the empty string. */
  type Grid = seq<seq<string>>

  predicate WellFormed(g: Grid) {
    |g| == Rows && forall r :: 0 <= r < Rows ==> |g[r]| == Cols
  }

  predicate OnBoard(c: Coord) {
    0 <= c.row < Rows && 0 <= c.col < Cols
  }

  /** The replay's guard: both row indices must name an existing row. Columns are not checked. */
  predicate RowsPass(m: Move) {
    0 <= m.from.row < Rows && 0 <= m.to.row < Rows
  }

  /** What the model needs of a move: when its rows pass the guard, its columns are on the board too. */
  predicate ColumnsModelled(m: Move) {
    RowsPass(m) ==> 0 <= m.from.col < Cols && 0 <= m.to.col < Cols
  }

  predicate AllColumnsModelled(moves: seq<Move>) {
    forall i :: 0 <= i < |moves| ==> ColumnsModelled(moves[i])
  }

  /** The starting position: black on rows 0-3, red on rows 6-9. */
  function InitialLayout(): (g: Grid)
    ensures WellFormed(g)
  {
    [ ["車", "馬", "象", "士", "將", "士", "象", "馬", "車"],
      ["", "", "", "", "", "", "", "", ""],
      ["", "砲", "", "", "", "", "", "砲", ""],
      ["卒", "", "卒", "", "卒", "", "卒", "", "卒"],
      ["", "", "", "", "", "", "", "", ""],
      ["", "", "", "", "", "", "", "", ""],
      ["兵", "", "兵", "", "兵", "", "兵", "", "兵"],
      ["", "炮", "", "", "", "", "", "炮", ""],
      ["", "", "", "", "", "", "", "", ""],
      ["车", "马", "相", "仕", "帅", "仕", "相", "马", "车"] ]
  }

  /** Every occupied square of the starting position is black in rows 0-3 and red in rows 6-9,
      and the two middle rows are empty. */
  lemma InitialLayoutSides()
    ensures forall r, c :: 0 <= r < Rows && 0 <= c < Cols && InitialLayout()[r][c] != "" ==>
      (r <= 3 ==> PieceColor(InitialLayout()[r][c]) == BlackClass) &&
      (r >= 6 ==> PieceColor(InitialLayout()[r][c]) == RedClass) &&
      r != 4 && r != 5
  {
  }

  /** One step of the replay loop. If both rows pass the guard, the glyph on `from` is lifted
      (leaving "") and written on `to`; otherwise the board is left as it was. */
  function ApplyMove(g: Grid, m: Move): (res: Grid)
    requires WellFormed(g) && ColumnsModelled(m)
    ensures WellFormed(res)
    ensures !RowsPass(m) ==> res == g
    ensures RowsPass(m) ==> res[m.to.row][m.to.col] == g[m.from.row][m.from.col]
    ensures RowsPass(m) && m.from != m.to ==> res[m.from.row][m.from.col] == ""
    ensures forall r, c :: 0 <= r < Rows && 0 <= c < Cols && Coord(r, c) != m.from && Coord(r, c) != m.to ==>
      res[r][c] == g[r][c]
    ensures m.from == m.to ==> res == g
  {
    if RowsPass(m) then
      var piece := g[m.from.row][m.from.col];
      var lifted := g[m.from.row := g[m.from.row][m.from.col := ""]];
      var res := lifted[m.to.row := lifted[m.to.row][m.to.col := piece]];
      assert m.from == m.to ==> res[m.from.row] == g[m.from.row];
      res
    else
      g
  }

  /** The board after the first `k` moves have been applied to `g` in order. A move index past
      the end of the list names no move and is skipped. */
  function Replay(g: Grid, moves: seq<Move>, k: nat): (res: Grid)
    requires WellFormed(g) && AllColumnsModelled(moves)
    ensures WellFormed(res)
    decreases k
  {
    if k == 0 || moves == [] then g
    else Replay(ApplyMove(g, moves[0]), moves[1..], k - 1)
  }

  /** Index 0 shows the starting board; so does any index over an empty move list. */
  lemma ReplayNothing(g: Grid, moves: seq<Move>, k: nat)
    requires WellFormed(g) && AllColumnsModelled(moves)
    ensures Replay(g, moves, 0) == g
    ensures moves == [] ==> Replay(g, moves, k) == g
  {
  }

  /** The board at index k + 1 is the board at index k with `moves[k]` applied, or the same
      board when there is no `moves[k]`. */
  lemma {:induction false} ReplayStep(g: Grid, moves: seq<Move>, k: nat)
    requires WellFormed(g) && AllColumnsModelled(moves)
    ensures Replay(g, moves, k + 1) ==
      if k < |moves| then ApplyMove(Replay(g, moves, k), moves[k]) else Replay(g, moves, k)
    decreases k
  {
    if moves == [] {
    } else if k == 0 {
      assert Replay(ApplyMove(g, moves[0]), moves[1..], 0) == ApplyMove(g, moves[0]);
    } else {
      var g1 := ApplyMove(g, moves[0]);
      ReplayStep(g1, moves[1..], k - 1);
      if k < |moves| {
        assert moves[1..][k - 1] == moves[k];
      }
    }
  }

  /** Every index at or past the end of the list shows the board after all moves. */
  lemma {:induction false} ReplayPastEnd(g: Grid, moves: seq<Move>, k: nat)
    requires WellFormed(g) && AllColumnsModelled(moves)
    requires k >= |moves|
    ensures Replay(g, moves, k) == Replay(g, moves, |moves|)
    decreases |moves|
  {
    if moves != [] {
      ReplayPastEnd(ApplyMove(g, moves[0]), moves[1..], k - 1);
    }
  }

  /** The board at index k depends only on the first k moves: moves after them may be dropped. */
  lemma {:induction false} ReplayUsesPrefix(g: Grid, moves: seq<Move>, k: nat, j: nat)
    requires WellFormed(g) && AllColumnsModelled(moves)
    requires k <= j <= |moves|
    ensures Replay(g, moves, k) == Replay(g, moves[..j], k)
    decreases k
  {
    if k > 0 {
      assert moves[..j][0] == moves[0];
      assert moves[..j][1..] == moves[1..][..j - 1];
      ReplayUsesPrefix(ApplyMove(g, moves[0]), moves[1..], k - 1, j - 1);
    }
  }

  /** A square that no applied move (among the first k whose rows pass the guard) lifts from
      or lands on still holds its starting glyph. */
  lemma {:induction false} ReplayFrame(g: Grid, moves: seq<Move>, k: nat, c: Coord)
    requires WellFormed(g) && AllColumnsModelled(moves) && OnBoard(c)
    requires forall i :: 0 <= i < k && i < |moves| && RowsPass(moves[i]) ==>
      moves[i].from != c && moves[i].to != c
    ensures Replay(g, moves, k)[c.row][c.col] == g[c.row][c.col]
    decreases k
  {
    if k > 0 && moves != [] {
      var g1 := ApplyMove(g, moves[0]);
      assert g1[c.row][c.col] == g[c.row][c.col];
      forall i | 0 <= i < k - 1 && i < |moves[1..]| && RowsPass(moves[1..][i])
        ensures moves[1..][i].from != c && moves[1..][i].to != c
      {
        assert moves[1..][i] == moves[i + 1];
      }
      ReplayFrame(g1, moves[1..], k - 1, c);
    }
  }
}
