# Xiangqi tutor: move replay and replay controls

This project models the logic inside the `XiangqiTutor` React component of a Chinese-chess
(Xiangqi) manual viewer. The component holds a 10 x 9 starting board, a list of move records and
a replay index. It draws the board you get by replaying the first `index` moves onto a copy of the
starting board. Buttons step the index forward and back, reset it, or jump to a move. An autoplay
toggle starts a timer that advances the index until the last move's index and then stops.

The model has five modules:

- `Pieces` (pieces.dfy): the red and black glyph sets and `getPieceColor`.
- `Board` (board.dfy): the grid, the `Move` record, the starting layout, one replay step
  (`ApplyMove`) and the replay of a move prefix (`Replay`), with the lemmas about them.
- `Navigation` (navigation.dfy): the playback state (index, playing, interval scheduled) and the
  handlers as pure functions. It also defines runs of user and timer events, with the invariant
  they keep.
- `Tutor` (tutor.dfy): the component as a class `XiangqiTutor`. Its fields are the ones the
  handlers update. Each handler method is proved against its `Navigation` function. `DisplayBoard`
  is the replay loop over a fresh `array2`, proved equal to `Board.Replay`.
- `Scenarios` (scenarios.dfy): the six moves the component loads on mount, replayed concretely.

Three behaviours of the code are easy to miss:

- Forward stepping and autoplay stop at index `moves.length - 1`, not `moves.length`.
  The drawn board applies only the moves before the index, so it never shows the last move of a
  list. `Tutor.DisplayOmitsLastMove` proves this in general, and `Scenarios.MockCannonNeverDrawn`
  shows it for the loaded list.
- Jumping sets the index to the target exactly, with no clamping. The UI only offers the list's
  own indices as targets.
- The replay guard checks row indices only, not columns.

## Model

| member | source | states |
|---|---|---|
| `Pieces.SidesDisjoint` | components/XiangqiTutor.tsx:121-122 | the red and black glyph sets are disjoint, have seven glyphs each and leave out the empty cell |
| `Pieces.PieceColor` | components/XiangqiTutor.tsx:119-124 | empty cell gives no class; the red class exactly for red glyphs, the black class exactly for black glyphs, no class exactly for glyphs of neither side |
| `Board.InitialLayout` | components/XiangqiTutor.tsx:23-34 | the starting grid has 10 rows of 9 cells |
| `Board.InitialLayoutSides` | components/XiangqiTutor.tsx:23-34 | every occupied starting square is classified black in rows 0-3 and red in rows 6-9; rows 4-5 are empty |
| `Board.ApplyMove` | components/XiangqiTutor.tsx:129-137 | a move whose rows fail the guard changes nothing; otherwise the `to` square gets what stood on `from`, `from` becomes empty unless it equals `to`, every other square is unchanged, and a move onto its own square changes nothing; the record's `piece` plays no part |
| `Board.Replay` | components/XiangqiTutor.tsx:126-141 | replaying any prefix of a move list keeps a 10 x 9 board |
| `Board.ReplayNothing` | components/XiangqiTutor.tsx:127-128 | index 0, or an empty move list, shows the starting board |
| `Board.ReplayStep` | components/XiangqiTutor.tsx:128-137 | the board at index k+1 is the board at k with `moves[k]` applied, or the board at k when there is no `moves[k]` |
| `Board.ReplayPastEnd` | components/XiangqiTutor.tsx:128-130 | any index at or past the list's length shows the board after all moves |
| `Board.ReplayUsesPrefix` | components/XiangqiTutor.tsx:128-129 | the board at index k depends only on the first k moves |
| `Board.ReplayFrame` | components/XiangqiTutor.tsx:133-137 | a square that no applied, guard-passing move lifts from or lands on keeps its starting glyph |
| `Navigation.Reset` | components/XiangqiTutor.tsx:99-103 | index 0, not playing, no interval; the result satisfies the invariant for every list length |
| `Navigation.Next` | components/XiangqiTutor.tsx:105-107 | advances by one exactly when the index is below `n - 1`, otherwise changes nothing; playback flags untouched; keeps the invariant |
| `Navigation.Prev` | components/XiangqiTutor.tsx:109-111 | steps back by one exactly when the index is above 0, otherwise changes nothing; never goes below 0; keeps the invariant |
| `Navigation.JumpTo` | components/XiangqiTutor.tsx:113-117 | index becomes exactly the target, not playing, no interval; satisfies the invariant when the target indexes the list |
| `Navigation.TogglePlay` | components/XiangqiTutor.tsx:80-97 | flips playing, schedules an interval exactly when it starts playing and clears it when it stops, keeps the index, keeps the invariant |
| `Navigation.Tick` | components/XiangqiTutor.tsx:88-95 | below `n - 1` it advances by one; otherwise it keeps the index, stops playing and clears the interval; on an empty list at index 0 it returns to the start state; keeps the invariant |
| `Navigation.Load` | components/XiangqiTutor.tsx:62-63 | loading a list resets the index to 0 and leaves the playback flags; the invariant holds afterwards |
| `Navigation.RunKeepsInv` | components/XiangqiTutor.tsx:80-117 | any sequence of next, prev, reset, offered jumps, toggles and ticks keeps the index in `[0, max(0, n-1)]` and the interval scheduled exactly while playing |
| `Navigation.FromStart` | components/XiangqiTutor.tsx:15-21 | from the start state (index 0, stopped, no interval) every run of events stays within those bounds |
| `Navigation.AutoplayStopsAtEnd` | components/XiangqiTutor.tsx:87-96 | autoplay from index i ends after `LastIndex(n) - i + 1` ticks at the last index, stopped, with its interval cleared |
| `Tutor.XiangqiTutor.constructor` | components/XiangqiTutor.tsx:15-34 | starts with the starting grid, no moves, index 0, not playing, no interval |
| `Tutor.XiangqiTutor.LoadMoves` | components/XiangqiTutor.tsx:62-63 | the move list is replaced and the state becomes `Load` of the old state |
| `Tutor.XiangqiTutor.PlayAnimation` | components/XiangqiTutor.tsx:80-97 | the new state is `TogglePlay` of the old; moves unchanged; invariant kept |
| `Tutor.XiangqiTutor.IntervalTick` | components/XiangqiTutor.tsx:88-95 | the new state is `Tick` of the old; moves unchanged; invariant kept |
| `Tutor.XiangqiTutor.ResetBoard` | components/XiangqiTutor.tsx:99-103 | the new state is `Reset` of the old; moves unchanged; invariant kept |
| `Tutor.XiangqiTutor.NextMove` | components/XiangqiTutor.tsx:105-107 | the new state is `Next` of the old; moves unchanged; invariant kept |
| `Tutor.XiangqiTutor.PrevMove` | components/XiangqiTutor.tsx:109-111 | the new state is `Prev` of the old; moves unchanged; invariant kept |
| `Tutor.XiangqiTutor.JumpToMove` | components/XiangqiTutor.tsx:113-117 | the new state is `JumpTo` of the old; moves unchanged; invariant kept |
| `Tutor.XiangqiTutor.DisplayBoard` | components/XiangqiTutor.tsx:126-141 | returns a freshly allocated board holding `Replay` of the starting layout at the current index; the starting grid still holds the starting layout |
| `Tutor.StepInPlace` | components/XiangqiTutor.tsx:133-137 | one pass of the loop body turns a board holding `g` into one holding `ApplyMove(g, m)` |
| `Tutor.DisplayOmitsLastMove` | components/XiangqiTutor.tsx:106 | at every index the controls can reach, dropping the last move from the list does not change the drawn board |
| `Scenarios.MockMoves` | components/XiangqiTutor.tsx:37-44 | the list loaded on mount has six moves, all with columns on the board |
| `Scenarios.CentralCannonOpening` | components/XiangqiTutor.tsx:38 | replaying 炮二平五 empties [7,1], puts 炮 on [7,4] and leaves the other 88 squares as they started |
| `Scenarios.MockCannonNeverDrawn` | components/XiangqiTutor.tsx:43 | after all six mock moves 砲 stands on [2,4], but at every reachable index that square is drawn empty |

## Left out

- Board.ApplyMove: the replay checks rows only. A column outside 0..8 would make the
  browser read `undefined` or grow a row array. The model therefore requires both columns of every
  guard-passing move to be on the board (`ColumnsModelled`, also required by `Replay` and
  `LoadMoves`), and does not model that behaviour.
- Move records are typed: a record with a missing `from`/`to`, or non-integer coordinates, is not
  modelled. This is the `move && move.from && move.to` part of the guard at line 130. The only
  "missing" move modelled is an index past the end of the list, which is skipped.
- Timer semantics: the 1500 ms period, wall-clock time and the interval handle. The interval is a
  boolean `intervalActive`, and each firing is an explicit `IntervalTick` call.
- Navigation.Tick: the interval's closure captures `moves.length` when playback starts. The model
  uses the current list's length. The two differ only if a new list is loaded while playing.
- Side effects run inside the React state updater (lines 88-93), and React may batch or repeat
  them. Not modelled; each handler is one atomic state change.
- The mount effect's cleanup (line 47) and the `useMemo`/`useCallback` caching are component
  lifecycle, not logic.
- Image upload, `FileReader` and the mock `analyzeImage` delay (lines 51-78) are browser I/O and
  async; only their effect on the move list (`LoadMoves`) is modelled.
- All rendering (lines 143-376), including coordinate labels and the progress-bar percentage
  (floating-point display arithmetic).
- app/api/chessdb/route.ts is a network passthrough to an external service and is not part of this
  model. lib/manuals.ts is static data only; its `Move` shape is the one used here.
- No position encoder or position-string validator appears in the component. None is modelled.
