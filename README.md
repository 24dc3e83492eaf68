# Piezas in Dafny

A model of `Piezas`, a Connect-Four-style board engine. The engine is a 3-row by 4-column
vertical board: row 0 is the bottom and row 2 is the top. Two players, X and O, take turns
dropping pieces into columns, and each piece falls to the lowest empty cell of its column.
The engine answers four requests:

- drop a piece (`dropPiece`);
- look at a cell (`pieceAt`);
- decide the game (`gameState`);
- clear the board (`reset`).

Every failure is reported through the returned `Piece`. `Invalid` means out of range or
game not over, and `Blank` means a full column or a tie.

The project has two files.

- `rules.dfy`, module `Rules`, holds the rules as pure functions on board values.
  - The board value is `Grid`, a sequence of rows.
  - `Place` sets one cell, and `LowestBlank` is the landing row of a drop.
  - `IsBoard` is the invariant every reachable board keeps: no `Invalid` cell, and no
    `Blank` below a piece.
  - The tally functions restate the `gameState` scan. `Credit` is the value of the scan's
    running counter `curMax` after each cell. `LineTally`, `LinesTally` and `ColumnsTally`
    are the maxima the scan records, and `Best` is the final `xMax` or `oMax`.
  - `Outcome` is the game's result.
  - `RunLen`, `LongestRun` and `BestRun` are an independent reference definition: the true
    length of each maximal run of equal pieces.
- `engine.dfy`, module `Engine`, holds the class `Piezas` with the fields `board` and `turn`.
  - The methods reassign both fields. `board` holds a `Grid` value and gets a new value
    through `Place` each time a cell is written.
  - `Reset`, `DropPiece` and `GameState` are loops, as in the C++. `PieceAt` has no loop, in
    the source or here.
  - Each method is proved against the functions of `Rules`.
  - `gameState` has two scanning loop nests, the horizontal one and the vertical one. Each
    is its own method here (`RowTallies`, `ColumnTallies`), and `GameState` calls them in
    the source's order.
  - Module `Scenarios` replays the move sequences of the unit tests in
    `PiezasTest.cpp:17-56` and `PiezasTest.cpp:60-67`. Its methods return what those calls
    return, and their contracts state the values the tests expect.
  - `ResetKeepsTurnScenario` is an added sequence that is not one of the tests. An
    out-of-range drop is followed by a reset, and it shows the lost turn survives the reset.

## How gameState counts

The comment at `Piezas.cpp:97-105` says the winner is the player with the most adjacent
pieces in one line. The code at `Piezas.cpp:121-165` counts something slightly different.

- At the start of a line, `p` is the first cell and the counter is 0, so a run that starts
  at the first cell is counted in full.
- When a cell differs from `p`, the code resets the counter to 0 and makes that cell the new
  `p` without counting it. So every later run is counted one short: in the row `X O O O`, O
  is credited with 2.

The model follows the code. The gap is stated and bounded by proofs:

- `CreditFromRun` gives the counter exactly, in terms of the true run length.
- `TallyNearLongestRun` and `BestNearBestRun` show the recorded tally is the true longest run
  or one less.
- `WinnerHasLongestRun` shows a declared winner never has the shorter longest run.
- `ClearMarginWins` shows a margin of two or more always wins.
- `UndercountDecidesGame` gives a full board on which both players have a longest run of 3,
  yet X is declared the winner.

Runs that do not start a line are all shortened alike, and both players are scanned the same
way. `OutcomeSwap` shows that exchanging X and O on the board exchanges the result.

Diagonals are not scanned, in the source or in the model.

## Model

| member | source | states |
|---|---|---|
| Engine.Piezas.constructor | Piezas.cpp:23-31 | the new engine's board is the empty grid, X is to move, and the board invariant holds |
| Engine.Piezas.Reset | Piezas.cpp:37-44 | every cell becomes Blank, so the board is the empty grid and a valid board; the turn is left unchanged |
| Engine.Piezas.DropPiece | Piezas.cpp:54-79 | out-of-range column: returns Invalid and leaves the board alone; otherwise the current player's piece lands on the lowest Blank cell of the column and is returned, with no other cell changed; full column: returns Blank and leaves the board alone; the turn toggles on every path and the board invariant is kept |
| Engine.Piezas.PieceAt | Piezas.cpp:85-95 | returns Invalid exactly when a coordinate is out of range, and otherwise the stored cell |
| Engine.Piezas.GameState | Piezas.cpp:106-171 | the result equals Outcome of the current board |
| Engine.Piezas.RowTallies | Piezas.cpp:118-142 | after the horizontal scan, xMax and oMax are the largest row tallies of X and O |
| Engine.Piezas.ColumnTallies | Piezas.cpp:144-165 | the vertical scan continues the horizontal maxima with the largest column tallies |
| Rules.Toggle | Piezas.cpp:59 | the next turn is always a player, and differs from the current one when that is a player |
| Rules.Place | Piezas.cpp:70 | the target cell holds the piece, every other cell is unchanged, and the shape is kept |
| Rules.EmptyGrid | Piezas.cpp:37-44 | the all-Blank grid is a valid board |
| Rules.AllBlankIsEmptyGrid | Piezas.cpp:37-44 | a grid of the board's shape with every cell Blank is the empty grid |
| Rules.LowestBlankFrom | Piezas.cpp:64-74 | the bottom-up scan from row `from`: every cell it passes holds a piece, and it stops on a Blank cell or at BOARD_ROWS |
| Rules.LowestBlank | Piezas.cpp:63-74 | the landing row: every cell below it holds a piece, and it is Blank unless it equals BOARD_ROWS (the column is full) |
| Rules.ColumnSplitsAtLowestBlank | Piezas.cpp:63-74 | on a valid board a cell of a column is Blank exactly when it is at or above the landing row |
| Rules.DropKeepsBoard | Piezas.cpp:64-73 | placing a player's piece on the landing row keeps the board invariant (gravity and no Invalid cell) |
| Rules.Credit | Piezas.cpp:124-140 | the value of curMax after the scan visits cell k is at most k+1; CreditFromRun gives its exact value |
| Rules.CreditFromRun | Piezas.cpp:124-141 | curMax after a cell equals the full run length when the run starts the line, and the run length minus one otherwise |
| Rules.RunLen | Piezas.cpp:101-102 | the reference run length: every cell of the run equals the last cell, and the cell before the run differs |
| Rules.LineTally | Piezas.cpp:126-141 | the maximum the scan records for a piece over the first n cells of a line (the updates at lines 131-134) is at most n; LineTallyIsMaxCredit characterizes it |
| Rules.LineTallyIsMaxCredit | Piezas.cpp:126-141 | a line's recorded tally for a piece is at least every curMax reached on that piece, and is 0 or attained |
| Rules.LongestRunIsMaxRun | Piezas.cpp:101-104 | the reference longest run is at least every run of the piece, and is 0 or attained |
| Rules.TallyNearLongestRun | Piezas.cpp:126-141 | a line's recorded tally is at most the longest run and at least one less than it |
| Rules.UndercountExample | Piezas.cpp:136-140 | in the line X O O O, O's run of 3 is tallied as 2 |
| Rules.LinesTally | Piezas.cpp:121-142 | the maximum recorded over the first m rows is at most BOARD_COLS; LinesTallyIsMax characterizes it |
| Rules.LinesTallyIsMax | Piezas.cpp:121-142 | the tally over rows is at least every row's tally, and is 0 or attained by some row |
| Rules.Column | Piezas.cpp:147-151 | the column read bottom to top has BOARD_ROWS cells |
| Rules.ColumnCells | Piezas.cpp:147-151 | cell r of the column is the board's cell in row r of that column |
| Rules.ColumnsTally | Piezas.cpp:144-165 | the maximum recorded over the first m columns is at most BOARD_ROWS; ColumnsTallyIsMax characterizes it |
| Rules.ColumnsTallyIsMax | Piezas.cpp:144-165 | the tally over columns is at least every column's tally, and is 0 or attained by some column |
| Rules.Best | Piezas.cpp:118-165 | the final xMax or oMax is at most 4, the larger board dimension, so the C++ int cannot overflow |
| Rules.BestOverRowsAndColumns | Piezas.cpp:118-165 | the final xMax or oMax is the largest tally over all rows and columns, 0 or attained |
| Rules.Outcome | Piezas.cpp:108-116 | the outcome is Invalid exactly when some cell is Blank |
| Rules.OpenColumnIffHasBlank | Piezas.cpp:108-116 | on a valid board, some cell is Blank exactly when some column still has a landing row, and exactly when some top-row cell is Blank |
| Rules.LinesTallyNearRun | Piezas.cpp:121-142 | over rows, the recorded maximum is the longest run or one less |
| Rules.ColumnsTallyNearRun | Piezas.cpp:144-165 | over columns, the recorded maximum is the longest run or one less |
| Rules.BestNearBestRun | Piezas.cpp:118-165 | a player's final tally is their longest horizontal or vertical run, or one less |
| Rules.WinnerHasLongestRun | Piezas.cpp:168-170 | a declared winner's longest run is at least as long as the other player's |
| Rules.ClearMarginWins | Piezas.cpp:168-170 | on a full board, a longest run two or more longer than the other player's wins |
| Rules.UndercountDecidesGame | Piezas.cpp:136-140 | a full board where both longest runs are 3 but the outcome is X |
| Rules.OutcomeSwap | Piezas.cpp:128-170 | exchanging X and O on the board exchanges X and O in the outcome |
| Rules.XWinsBoard | PiezasTest.cpp:70-81 | a bottom row of four X against O's best of 2: X wins |
| Rules.OWinsBoard | PiezasTest.cpp:84-93 | O's column of three against X's best of 2: O wins |
| Rules.RowsTieBoard | PiezasTest.cpp:95-107 | a full X row and a full O row: a tie |
| Rules.ColumnsTieBoard | PiezasTest.cpp:110-120 | columns of three X and three O, alternating: a tie |
| Scenarios.DropPieceScenario | PiezasTest.cpp:17-34 | three drops into column 0 return X, O and X; a fourth returns Blank; columns -1 and BOARD_COLS return Invalid |
| Scenarios.PieceAtScenario | PiezasTest.cpp:36-56 | after drops into columns 0, 0 and 1, the queried cells are X, O, X and Blank, and the four out-of-range queries return Invalid |
| Scenarios.UnfinishedScenario | PiezasTest.cpp:60-67 | after drops into columns 1, 0, 2 and 3 the game state is Invalid |
| Scenarios.ResetKeepsTurnScenario | Piezas.cpp:33-61 | an out-of-range drop costs X the turn and a reset keeps it, so the next drop places O |

## Left out

- Piezas.h is not part of this model. Its constants (3 rows, 4 columns) and the four values
  of `Piece` (Blank, X, O, Invalid) are declared in `Rules` as the engine uses them.
- Engine.Piezas.constructor: the C++ sizes the grid with `vector::resize` and then calls
  `reset()`. The model leaves the contents after sizing unspecified, and the `Reset` that
  follows makes them Blank either way.
- Engine.Piezas.GameState: requires only that the grid has BOARD_ROWS rows of BOARD_COLS
  cells, not the full board invariant. It is therefore proved for every grid of that shape.
- C++ `int` width: tallies never exceed 4 (the contract of `Rules.Best`), so no overflow can
  occur, and the model uses unbounded integers.
- `vector<vector<Piece>>` storage: the board is a single value that is replaced on every
  write. The model does not capture updating a row in place or aliasing of the rows. No code
  outside the object can reach the rows.
- The gtest harness itself is not modelled. The four full-board cases of the `gameState`
  test are stated as lemmas on the boards their drop sequences produce, as the test's
  comments draw them. The twelve drops that build each board are not replayed.
