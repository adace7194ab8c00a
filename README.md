# Lines of Action rule engine, modelled in Dafny

This project models the rule engine of an 8×8 Lines-of-Action game, together with the two small components that read its move table.

**The board.** The current `Board` (`src/env/board.py`) keeps:
- a cell matrix: 0 empty, 1 Black, −1 White;
- four occupancy-counter lists, for rows, columns, main diagonals and anti-diagonals, maintained incrementally;
- a piece count per colour;
- a cached move table per colour;
- the side to move and an end-of-game flag.

**Moves.** A piece slides along one of eight directions. The distance is the counter of the line it moves along. It may jump its own pieces but not the opponent's, and it captures by landing on an opponent's piece.

**`exec`.** It applies a move, updates counters and counts, regenerates the tables and passes the turn. It ends the game in three cases:
- the opponent is down to one piece;
- the mover is connected (a two-pass raster labelling);
- neither side can move.

**The other modelled components:**
- an older board (`src/board.py`), whose `exec` only places a piece and whose generator reads the diagonal counters the other way round;
- the greedy engine (`src/engines/greedy.py`), which takes the first capture in table order and otherwise makes a drawn choice;
- the `GameState` adapter that the tree search uses (`src/engines/mcts_engine.py`).

## How the model is built

Modules follow the program:

| module | file | contents |
|---|---|---|
| `Options` | `options.dfy` | the `Option` type |
| `Geometry` | `geometry.dfy` | colours, cells, the matrix, piece counting, the four counter lists, the counter invariant, the opening literals |
| `Moves` | `moves.dfy` | the sliding rule, the generator as a specification and as the loops, table lookup, flattening, the first capture, the two diagonal rules |
| `Labelling` | `labelling.dfy` | the connectivity test, as two recursive passes and as loops |
| `Fingerprint` | `fingerprint.dfy` | `hash_state` with its decoder |
| `EnvBoard` | `env_board.dfy` | the current board as a value (`State`, `ExecSpec`) and as a class (`Board`, whose fields the methods update in place) |
| `OldBoard` | `old_board.dfy` | the older board as a class |
| `Greedy` | `greedy.dfy` | the greedy engine |
| `MctsEngine` | `mcts_engine.dfy` | `GameState` |

**Move tables.** A Python `{source: [targets]}` dictionary becomes a `Table`, a sequence of `Entry(source, targets)` in insertion order. A lookup becomes `StepsIn`.

**Diagonal slots.** The index `col - row` or `7 - col - row` may be negative, which Python reads from the end of the 15-slot list. `MainIndex` and `AntiIndex` write out that wrap.

**What `exec` means.** `EnvBoard.ExecSpec` says what one call does to a `State`. `EnvBoard.Board.Exec` is proved to do exactly that to its fields. `Consistent` states what a running game promises:
- the counts equal the number of pieces on the matrix;
- unless the game is over, the table of the side to move is freshly generated and not empty.

It is proved to hold at the start and to survive every accepted `exec` from a running game.

**Stale tables.** The pre-move connectivity branch of `exec` leaves the tables unchanged while passing the turn. That branch also sets the end flag, so the promise is made, as the code makes it, only for games that are not over. A later `exec` on such a finished board may still accept a stale pair whose target now holds the mover's own piece; no count changes, so the mover's count then exceeds its pieces. `MctsEngine.GameState.GetReward` is therefore stated for consistent boards. After an ordinary move that passes the turn, the side that just moved keeps the table it held before the move (`EnvBoard.Settle`).

**Connectivity as written.** The test is modelled as written.
- It gives a cell the first non-zero neighbour label, not the smallest.
- It records one equivalence, between the left and upper-left labels.
- It resolves labels in a single step.

So it reports a connected V shape as split (`Labelling.VShapeSplit`). A plain diagonal run is reported connected, and the same run with a gap is reported split (`DiagonalRunConnected`, `DiagonalGapSplit`).

**Where the code is followed.** A textbook labelling would take the least label and merge all observed labels. The code does neither, and the model follows the code. Likewise, a refused move is an exception in the code (an assertion, a missing key, an index out of range), while an error value would be the usual design. The model turns each refusal into an outcome, `Rejected`, or `false` from a method, with the board unchanged.

**Empty lists in the table.** The module comment of `src/env/board.py` shows a table key mapped to an empty list. The generator never creates one, and `Moves.AvailTableWellFormed` proves that.

## Model

| member | source | states |
|---|---|---|
| Geometry.Put | src/env/board.py:74-92 | writing a cell changes that cell only; the matrix stays 8×8 with cells in −1..1 |
| Geometry.PieceCountAfterPut | src/env/board.py:74-92 | after a write, the count of value `c` loses one if the old cell held `c` and gains one if the new value is `c` |
| Geometry.OccupancyAfterPut | src/env/board.py:81-89 | a write changes the occupancy only of the four lines through the cell, by the change in emptiness |
| Geometry.CountersAfterPut | src/env/board.py:81-92 | bumping the four counters of a written cell by its change in emptiness keeps every counter equal to its line's occupancy |
| Geometry.LinesThrough | src/env/board.py:83-84 | a cell lies on exactly four lines: its row, its column, main slot `(col-row)` wrapped into 0..14 and anti slot `(7-col-row)` wrapped into 0..14 |
| Geometry.InitialLayout | src/env/board.py:41-46 | the opening matrix has Black on rows 0 and 7 (columns 1–6), White on columns 0 and 7 (rows 1–6), and every other cell empty |
| Geometry.SetupGrid | src/env/board.py:41-46 | the constructor's loop over `1..6` produces exactly the opening matrix |
| Geometry.InitialCountersMatch | src/env/board.py:48-51 | the four literal counter lists equal the occupancy of every row, column and diagonal slot of the opening matrix |
| Geometry.InitialRowCounters | src/env/board.py:48 | the row literal `[6,2,…,2,6]` counts the pieces of each row |
| Geometry.InitialColCounters | src/env/board.py:49 | the column literal counts the pieces of each column |
| Geometry.InitialMainCounters | src/env/board.py:50 | each main-diagonal slot literal counts the pieces on cells whose wrapped `col-row` is that slot |
| Geometry.InitialAntiCounters | src/env/board.py:51 | each anti-diagonal slot literal counts the pieces on cells whose wrapped `7-col-row` is that slot |
| Geometry.InitialPieceCounts | src/env/board.py:41-55 | the opening matrix holds 12 Black and 12 White pieces, matching `counts = {B: 12, W: 12}` |
| Geometry.MatchingCountersNonNegative | src/env/board.py:48-51 | counters that match a matrix are never negative |
| Moves.NoEnemyBetween | src/env/board.py:189-193 | the `no_enemy` loop is true iff no cell strictly between the source and the slide target holds the opponent |
| Moves.TargetsAtCell | src/env/board.py:182-305 | the eight direction tries for one piece return the targets of the sliding rule, in the order Right, Left, Down, Up, UpRight, DownLeft, UpLeft, DownRight |
| Moves.CellEntry | src/env/board.py:181-305 | a cell adds a table entry iff it holds the colour and has a target, and that entry lists the cell's targets |
| Moves.GenerateSteps | src/env/board.py:177-306 | the raster loops of `get_avail_steps` build the specification table `AvailTable` |
| Moves.TargetsAtMembers | src/env/board.py:187-305 | a cell is in a piece's target list iff some direction slides to it |
| Moves.TargetsOnBoard | src/env/board.py:187-305 | every target lies on the board and does not hold the mover's colour |
| Moves.AvailTableWellFormed | src/env/board.py:195-198 | generated keys are distinct and on the board, target lists are never empty, and every target is on the board |
| Moves.AvailStepsIn | src/env/board.py:181-198 | looking up a cell in the generated table returns its targets if it holds the colour, and `[]` otherwise |
| Moves.AvailKeys | src/env/board.py:181-198 | a cell is a key iff it holds the colour and has at least one target |
| Moves.GeneratedMoves | src/env/board.py:181-305 | `q` is listed under `p` iff `p` holds the colour and a slide in one of the eight directions reaches `q`: counter distance, on the board, not onto an own piece, no opponent jumped |
| Moves.LegalTargets | src/env/board.py:308-312 | the lookup of `p` in the generated table holds exactly the legal targets of `p` |
| Moves.AvailTableNonEmpty | src/env/board.py:314-315 | the generated table is non-empty iff the colour has a legal move |
| Moves.StepsIn | src/env/board.py:308-312 | `get_avail_steps_in` returns `[]` for a cell that is not a key |
| Moves.StepsInListed | src/env/board.py:308-312 | with distinct keys, `q` is in the lookup of `p` iff some entry for `p` lists `q` |
| Moves.StepsInAtKey | src/env/board.py:308-312 | with distinct keys, looking up an entry's own source returns that entry's list |
| Moves.TableNonEmpty | src/env/board.py:314-315 | a well-formed table is non-empty iff some lookup returns a target |
| Moves.StepsInOnBoard | src/env/board.py:71-92 | a target that passes the table check lies on the board, so the later reads and writes of its cell stay in range |
| Moves.MoveLeavesSource | src/env/board.py:70-92 | a legal move starts on an own piece and ends on a different on-board cell that holds no own piece |
| Moves.DistanceIsOccupancy | src/env/board.py:182-185 | under matching counters, each sliding distance equals the number of pieces on the line whose counter it reads |
| Moves.CurrentDistance | src/env/board.py:182-185 | in the current generator, the distance is the piece count of the line of movement, and at least 1 from an occupied cell |
| Moves.CurrentMovesMatchLines | src/env/board.py:239-305 | every current move travels, along its direction, exactly the number of pieces on its line of movement (at least one) |
| Moves.CounterLines | src/board.py:100-154 | the current generator reads the counter of the line of movement in all eight directions; the older one does so exactly in the four straight directions |
| Moves.StraightSlidesAgree | src/board.py:48-98 | along rows and columns the older generator slides exactly as the current one, on every board, reading the row or column counter |
| Moves.SlidesAgree | src/board.py:100-154 | where a cell's two diagonal counters are equal, the older and current rules slide identically from it |
| Moves.AvailTablesAgree | src/board.py:38-155 | when the diagonal counters of every own piece agree, the older and current generators build the same table |
| Moves.InitialTablesAgree | src/board.py:29 | on the opening board the older generator builds the same table as the current one |
| Moves.OlderDiagonalMiscount | src/board.py:101-112 | with Black on (3,3) and (4,4), the older rules let (4,4) move up-right to (2,6), two cells along an anti-diagonal that holds one piece; no direction's line count gives that move and the current rules reject it |
| Moves.FirstCapture | src/engines/greedy.py:17-20 | the first capture is none iff no listed move captures, and otherwise it is the capturing move with no capture before it |
| Moves.FirstCaptureAppend | src/engines/greedy.py:17-20 | the first capture of a concatenation is the first of its first part, when there is one, and otherwise that of the second part |
| Moves.FlattenListed | src/engines/mcts_engine.py:10-15 | a pair is in the flattened table iff some entry for its source lists its target |
| Moves.FlattenMoves | src/engines/mcts_engine.py:10-15 | in a well-formed table the flattened pairs are exactly the lookups, and the flattening is empty iff the table is |
| Moves.AvailMoves | src/engines/mcts_engine.py:10-15 | the flattened generated table holds exactly the legal moves |
| Labelling.NonZerosFacts | src/env/board.py:146-152 | `non_zeros` holds each seen non-zero label once, and is empty iff all four labels were 0 |
| Labelling.LeastOf | src/env/board.py:170 | `min(label, *equiv)` is at most the label and every recorded equivalent, and is one of them |
| Labelling.SortNeighbours | src/env/board.py:146-152 | the loop over the four neighbour labels yields the zero count and the distinct non-zero labels in first-seen order |
| Labelling.LabelStep | src/env/board.py:145-163 | one first-pass step: a fresh label when all neighbours are 0, else the first non-zero one, and with two or more of them an equivalence recorded under the left label |
| Labelling.FirstPass | src/env/board.py:141-163 | the first raster loop computes the recursive first pass |
| Labelling.SecondPass | src/env/board.py:164-171 | the second raster loop computes the greatest resolved label |
| Labelling.IsConnected | src/env/board.py:112-175 | `is_connected` is true iff the greatest resolved label is exactly 1 |
| Labelling.SkipFirst | src/env/board.py:144 | cells not holding the colour leave the first pass unchanged |
| Labelling.SkipSecond | src/env/board.py:168 | cells not holding the colour leave the greatest label unchanged |
| Labelling.MaxGrows | src/env/board.py:171 | the greatest label never decreases during the second pass |
| Labelling.FreshLabel | src/env/board.py:153-155 | a cell with four unlabelled neighbours gets label `cur_label + 1`, and `cur_label` advances |
| Labelling.UpperLeftLabel | src/env/board.py:156-157 | a cell whose only labelled neighbour is the upper-left one takes that label and records nothing |
| Labelling.NoPiecesNotConnected | src/env/board.py:165-175 | a colour without pieces is not connected (the greatest label stays 0) |
| Labelling.SinglePieceLabel | src/env/board.py:141-163 | a lone piece gets label 1 and nothing is recorded |
| Labelling.SinglePieceConnected | src/env/board.py:112-175 | a colour with exactly one piece is connected |
| Labelling.DiagonalRunConnected | src/env/board.py:112-175 | pieces on (0,0), (1,1) and (2,2) are reported connected |
| Labelling.DiagonalGapSplit | src/env/board.py:112-175 | pieces on (0,0) and (2,2) are reported split |
| Labelling.VShapeSplit | src/env/board.py:156-170 | pieces on (0,0), (0,2) and (1,1), one 8-connected group, are reported split: the equivalence is recorded under the left label 0, and label 2 survives |
| Fingerprint.HashGrid | src/env/board.py:322-327 | the row-major loop builds the fingerprint, and decoding it returns the 64 cells in scan order |
| Fingerprint.DecodeEncode | src/env/board.py:322-327 | decoding the concatenated cell texts gives back the cells (`0`, `1` and `-1` form a prefix code) |
| Fingerprint.CellsAt | src/env/board.py:324-326 | cell `(r, c)` sits at position `8r + c` of the scan |
| Fingerprint.FingerprintInjective | src/env/board.py:322-327 | two matrices with the same fingerprint are equal |
| EnvBoard.InitialState | src/env/board.py:40-56 | the opening state is well formed: counters match the matrix, both tables and counts are present |
| EnvBoard.InitialBoard | src/env/board.py:41-56 | the opening state has the standard layout, counts 12/12 matching the matrix, an empty White table, Black to move, and is not over |
| EnvBoard.InitialConsistent | src/env/board.py:40-56 | the opening state keeps the promises of a running game: counts equal piece counts, and Black's table is fresh and non-empty |
| EnvBoard.OpeningMove | src/env/board.py:54 | at the start Black may move (0,1) two cells down |
| EnvBoard.OpeningJump | src/env/board.py:54 | at the start Black's table lists (0,7) under (0,1): six cells right, over its own pieces |
| EnvBoard.Relocate | src/env/board.py:74-92 | after lifting and setting down a piece, the target holds the mover, the source is empty, all else is unchanged, and the counters still match |
| EnvBoard.MoveKeepsCounters | src/env/board.py:81-89 | decrementing the source's four counters, then incrementing the target's four only when it was empty, keeps the counter invariant |
| EnvBoard.RelocateCounts | src/env/board.py:77-78 | a move keeps the mover's piece count and lowers the opponent's by one exactly when it lands on an opponent |
| EnvBoard.Recount | src/env/board.py:77-78 | the opponent's count drops by one on a capture; the mover's count is untouched |
| EnvBoard.Retabled | src/env/board.py:95-105 | after both tables are rewritten, each colour's table is the one given, and both are well formed |
| EnvBoard.Settle | src/env/board.py:95-110 | the turn passes iff the opponent has moves; the side to move ends with a fresh table; the other side holds the fresh (empty) opponent table when the turn does not pass, and the mover's pre-move table when it does; the game ends iff it had ended, the opponent is down to one piece, the mover is connected, or neither side has a move |
| EnvBoard.MoveSpec | src/env/board.py:72-110 | an accepted move relocates the piece, recounts, passes the turn and ends the game as `Settle` says; the side to move holds a fresh table, and the other side the fresh opponent table if the turn stays, otherwise the mover's table from before the move |
| EnvBoard.ExecSpec | src/env/board.py:58-110 | `exec` keeps the state well formed on every path it completes |
| EnvBoard.ExecBeforeMove | src/env/board.py:59-64 | without a source, `exec` changes nothing; if the side to move is already connected, it only sets the end flag and flips the colour |
| EnvBoard.ExecRefusals | src/env/board.py:59-71 | `exec` refuses iff there is a source, the mover is not connected, and there is no target, or the source is off the board or not the mover's, or the target is not in the mover's cached table |
| EnvBoard.AcceptsLegalMoves | src/env/board.py:70-71 | in a running game the two assertions pass exactly for the legal moves of the side to move |
| EnvBoard.MoveEffect | src/env/board.py:70-92 | a move clears the source, sets the target to the mover and leaves every other cell as it was; the mover keeps its pieces, the opponent loses one iff the target held one, and the counts still equal the piece counts |
| EnvBoard.TurnPassing | src/env/board.py:95-110 | after a move the colour flips iff the opponent has a legal move, and the side to move then holds a freshly generated table |
| EnvBoard.EndOfGame | src/env/board.py:97-108 | after a move from a running game, the game is over iff the opponent has one piece left, the mover is connected, or neither side has a legal move |
| EnvBoard.ExecKeepsConsistent | src/env/board.py:58-110 | every `exec` from a running game keeps the counts equal to the piece counts, and a game not over keeps a fresh, non-empty table for the side to move |
| EnvBoard.TerminalStays | src/env/board.py:58-110 | once the game is over, `exec` never clears the end flag |
| EnvBoard.Board.constructor | src/env/board.py:40-56 | the fields of a new board are exactly the opening state |
| EnvBoard.Board.Copy | src/engines/mcts_engine.py:19 | a copy has the same value as the board it copies |
| EnvBoard.Board.GetAvailSteps | src/env/board.py:177-306 | the generated table is the specification table of the board's matrix and counters, and it is well formed |
| EnvBoard.Board.IsConnected | src/env/board.py:112-175 | the method answers the labelling test for the side to move |
| EnvBoard.Board.GetAvailStepsIn | src/env/board.py:308-312 | returns `[]` for a missing key; in a running game, the list for the side to move holds exactly the legal targets of the cell |
| EnvBoard.Board.CanColorGo | src/env/board.py:314-315 | true iff the cached table has a target for some cell; in a running game, the side to move can go and has a legal move |
| EnvBoard.Board.HashState | src/env/board.py:322-327 | returns the fingerprint of the matrix, which decodes back to its cells |
| EnvBoard.Board.Exec | src/env/board.py:58-110 | an accepted call turns the fields into `ExecSpec`'s next state; a refused call leaves every field as it was |
| EnvBoard.Board.Move | src/env/board.py:72-110 | the in-place steps after the checks produce `MoveSpec` |
| EnvBoard.Board.Relocation | src/env/board.py:73-92 | the cell, count and counter updates produce `Relocate` and `Recount`; colour, tables and end flag stay |
| EnvBoard.Board.ShiftCounters | src/env/board.py:81-89 | adds `delta` to the four counters of a cell's lines and changes nothing else |
| EnvBoard.Board.Regenerate | src/env/board.py:94-110 | the table updates, end tests and turn passing produce `Settle` of the relocated board |
| OldBoard.Loc | src/board.py:33-34 | Python indexing of `matrix[row][col]` for one in-range coordinate pair, with negative values counted from the end |
| OldBoard.Board.constructor | src/board.py:15-30 | the same opening matrix and counter literals as the current board, Black to move, Black's table generated by the older rules, an empty White table, scores 8/8 |
| OldBoard.Board.Exec | src/board.py:32-36 | succeeds iff `loc` can be indexed; writes the colour at `loc` only, leaves counters and scores alone, regenerates the opponent's table by the older rules, keeps the mover's, and flips the side to move, whatever colour was placed |
| OldBoard.Board.Place | src/board.py:33-34 | writes one cell and nothing else |
| OldBoard.Board.Retable | src/board.py:35 | regenerates one colour's table by the older rules and keeps the other |
| OldBoard.Board.GetAvailSteps | src/board.py:38-155 | the older generator builds the specification table under the older rules, well formed |
| OldBoard.Board.GetAvailStepsIn | src/board.py:157-161 | returns `[]` for a missing key; over a fresh table, the listed targets are exactly the older rules' legal targets |
| OldBoard.Board.CanColorGo | src/board.py:163-164 | true iff some lookup returns a target; over a fresh table, iff the colour has a legal move under the older rules |
| Greedy.GreedyEngine.Exec | src/engines/greedy.py:12-24 | the nested loops with early return, then the drawn fallback, return `Choice`; the board is only read |
| Greedy.ChoiceNone | src/engines/greedy.py:13-14 | no move is returned iff the table of the side to move is empty |
| Greedy.ChoiceCaptures | src/engines/greedy.py:16-20 | when some listed move captures, the result is the first capturing move in key order, then list order |
| Greedy.ChoiceInTable | src/engines/greedy.py:17-24 | every returned move is a pair of the table |
| Greedy.ChoiceCoversTable | src/engines/greedy.py:22-24 | when nothing captures, every pair of the table is returned for some pair of draws |
| Greedy.ChoiceIsLegal | src/engines/greedy.py:12-24 | in a running game the engine always returns a legal move |
| MctsEngine.GameState.constructor | src/engines/mcts_engine.py:7-8 | wraps the given board |
| MctsEngine.GameState.GetPossibleActions | src/engines/mcts_engine.py:10-15 | returns the table of the side to move flattened in key order, then list order; in a running game that list is non-empty and holds exactly the legal moves |
| MctsEngine.GameState.TakeAction | src/engines/mcts_engine.py:17-21 | leaves its own board unchanged; succeeds iff `exec` accepts the action, and then returns a fresh state on a fresh board equal to `ExecSpec` applied to a copy; a running game stays consistent |
| MctsEngine.GameState.IsTerminal | src/engines/mcts_engine.py:23-24 | when it answers false on a consistent board, the side to move has a legal move |
| MctsEngine.GameState.GetReward | src/engines/mcts_engine.py:27-30 | on a consistent board, true iff the side to move has strictly more pieces on the board than the opponent |

## Left out

- `MCTSEngine.exec` (src/engines/mcts_engine.py:37-40): it delegates to a search module that is not part of this model. `src/engines/mcts.py` is left out as well, since it relies on wall-clock time, floating-point UCB and random choice.
- `src/app.py`, `src/engines/random.py`, `print_board` and the `__main__` blocks: user interface, a thin random wrapper and console output.
- Greedy.GreedyEngine.Exec: the two `random.choice` calls become two draws supplied by the caller, each reduced modulo the list length. The distribution of the choice is not modelled, only which moves some draws reach (`ChoiceCoversTable`).
- EnvBoard.Board.Exec: Python exceptions raised by `exec` are not modelled as exceptions. This covers a failed assertion, a missing table key, an index out of range, and a missing target that cannot be unpacked. They become the `Rejected` outcome and a `false` result, and the board stays as it was, as it does when the exception leaves `exec`. The caller's arguments are `Option<Pos>`: a target that is no pair of integers is not modelled.
- MctsEngine.GameState.TakeAction: an exception from `exec` becomes `None` instead of propagating to the search.
- `deepcopy` is modelled as constructing a new board with the same field values (`EnvBoard.Board.Copy`).
- OldBoard.Board.Exec: the colour argument is limited to 1 and −1. Python would accept any integer and write it to the matrix.
- Lists returned by `get_avail_steps_in` alias the cached table in Python. The model returns values, so updates made through such an alias are not captured.
- Integers are unbounded in Python and in the model, so there is no overflow to model.

## Findings

| source | as written | input that shows it | evidently intended | confidence | as-written member | corrected member |
|---|---|---|---|---|---|---|
| src/board.py:100-154 | up-right and down-left read `maindiag_checkers[j-i]`, and up-left and down-right read `paradiag_checkers[7-j-i]`; each diagonal move reads the counter of the other diagonal | Black alone on (3,3) and (4,4): the older rules let (4,4) move up-right to (2,6), two cells, although its anti-diagonal holds one piece | the distance of a diagonal move is the number of pieces on the diagonal it moves along, as in src/env/board.py:239-305 | not executed | Moves.OlderDiagonalMiscount | Moves.CurrentMovesMatchLines |

The corrected rules (`Rules.Current`) are those of the current board, which the rest of the model uses. `Moves.CurrentDistance` and `Moves.CurrentMovesMatchLines` prove that every current move goes exactly as far as its line's piece count.
