/** The rules of the Piezas board, as pure functions on board values.
    A board is a grid indexed [row][column] with row 0 at the bottom. */
module Rules {

  /** A board cell or a query result: Blank is an empty cell, X and O are the two
      players' pieces, Invalid is the answer to an out-of-range query or an unfinished
      game and is never stored on the board. */
  datatype Piece = Blank | X | O | Invalid

  const BOARD_ROWS: nat := 3
  const BOARD_COLS: nat := 4

  type Grid = seq<seq<Piece>>

  predicate IsPlayer(p: Piece) {
    p == X || p == O
  }

  /** The turn after `p`: O after X and X after anything else. */
  function Toggle(p: Piece): (q: Piece)
    ensures IsPlayer(q)
    ensures IsPlayer(p) ==> q != p
  {
    if p == X then O else X
  }

  function Max(a: nat, b: nat): nat {
    if a >= b then a else b
  }

  predicate InRange(row: int, column: int) {
    0 <= row < BOARD_ROWS && 0 <= column < BOARD_COLS
  }

  /** BOARD_ROWS rows of BOARD_COLS cells each. */
  predicate HasShape(g: Grid) {
    |g| == BOARD_ROWS && forall r :: 0 <= r < BOARD_ROWS ==> |g[r]| == BOARD_COLS
  }

  /** What every reachable board satisfies: no cell holds Invalid, and no Blank lies
      below a piece, so every column is filled from the bottom without gaps. */
  predicate IsBoard(g: Grid) {
    HasShape(g)
    && (forall r, c :: 0 <= r < BOARD_ROWS && 0 <= c < BOARD_COLS ==> g[r][c] != Invalid)
    && (forall low, high, c :: 0 <= low < high < BOARD_ROWS && 0 <= c < BOARD_COLS && g[high][c] != Blank
          ==> g[low][c] != Blank)
  }

  /** The board with every cell Blank. */
  function EmptyGrid(): (g: Grid)
    ensures IsBoard(g)
    ensures forall r, c :: 0 <= r < BOARD_ROWS && 0 <= c < BOARD_COLS ==> g[r][c] == Blank
  {
    seq(BOARD_ROWS, _ => seq(BOARD_COLS, _ => Blank))
  }

  /** A grid of the board's shape whose every cell is Blank is the empty grid. */
  lemma AllBlankIsEmptyGrid(g: Grid)
    requires HasShape(g)
    requires forall r, c :: 0 <= r < BOARD_ROWS && 0 <= c < BOARD_COLS ==> g[r][c] == Blank
    ensures g == EmptyGrid()
  {
    var e := EmptyGrid();
    forall r | 0 <= r < BOARD_ROWS
      ensures g[r] == e[r]
    {
      assert forall c :: 0 <= c < BOARD_COLS ==> g[r][c] == e[r][c];
    }
  }

  /** The board `g` with cell [row][column] set to `p` and every other cell as it was. */
  function Place(g: Grid, row: int, column: int, p: Piece): (h: Grid)
    requires HasShape(g) && InRange(row, column)
    ensures HasShape(h)
    ensures h[row][column] == p
    ensures forall r, c :: 0 <= r < BOARD_ROWS && 0 <= c < BOARD_COLS && (r != row || c != column) ==> h[r][c] == g[r][c]
  {
    g[row := g[row][column := p]]
  }

  /** The lowest row at or above `from` whose cell in `column` is Blank, or BOARD_ROWS
      when there is none. */
  function LowestBlankFrom(g: Grid, column: int, from: nat): (k: nat)
    requires HasShape(g) && 0 <= column < BOARD_COLS && from <= BOARD_ROWS
    ensures from <= k <= BOARD_ROWS
    ensures forall j :: from <= j < k ==> g[j][column] != Blank
    ensures k < BOARD_ROWS ==> g[k][column] == Blank
    decreases BOARD_ROWS - from
  {
    if from == BOARD_ROWS then BOARD_ROWS
    else if g[from][column] == Blank then from
    else LowestBlankFrom(g, column, from + 1)
  }

  /** The row a piece dropped into `column` lands on, or BOARD_ROWS when the column is full. */
  function LowestBlank(g: Grid, column: int): (k: nat)
    requires HasShape(g) && 0 <= column < BOARD_COLS
    ensures k <= BOARD_ROWS
    ensures forall j :: 0 <= j < k ==> g[j][column] != Blank
    ensures k < BOARD_ROWS ==> g[k][column] == Blank
  {
    LowestBlankFrom(g, column, 0)
  }

  /** On a board, a column holds pieces exactly in the rows below LowestBlank and Blank from
      there up, so the number of pieces in a column is LowestBlank. */
  lemma ColumnSplitsAtLowestBlank(g: Grid, column: int, row: int)
    requires IsBoard(g) && 0 <= column < BOARD_COLS && 0 <= row < BOARD_ROWS
    ensures g[row][column] == Blank <==> row >= LowestBlank(g, column)
  {
  }

  /** Placing a player's piece on the lowest Blank of a column keeps the board invariant. */
  lemma DropKeepsBoard(g: Grid, column: int, p: Piece)
    requires IsBoard(g) && 0 <= column < BOARD_COLS && IsPlayer(p)
    requires LowestBlank(g, column) < BOARD_ROWS
    ensures IsBoard(Place(g, LowestBlank(g, column), column, p))
  {
  }

  // ---------------------------------------------------------------------------
  // The tally of gameState, as the code computes it

  /** The value of `curMax` right after gameState's scan of a line visits cell `k`. The scan
      starts with p = line[0] and curMax = 0; a cell equal to p adds one, and a cell that
      differs resets curMax to 0 and makes it the new p without counting it. */
  function Credit(line: seq<Piece>, k: nat): (n: nat)
    requires k < |line|
    ensures n <= k + 1
  {
    if k == 0 then 1
    else if line[k] == line[k - 1] then Credit(line, k - 1) + 1
    else 0
  }

  /** The length of the maximal run of equal cells that ends at cell `k`. */
  function RunLen(line: seq<Piece>, k: nat): (n: nat)
    requires k < |line|
    ensures 1 <= n <= k + 1
    ensures forall j :: k - n < j <= k ==> line[j] == line[k]
    ensures n <= k ==> line[k - n] != line[k]
  {
    if k == 0 then 1
    else if line[k] == line[k - 1] then RunLen(line, k - 1) + 1
    else 1
  }

  /** A run that starts at the first cell of the line is credited in full; every other run
      is credited one cell short. */
  lemma {:induction false} CreditFromRun(line: seq<Piece>, k: nat)
    requires k < |line|
    ensures Credit(line, k) == if RunLen(line, k) == k + 1 then k + 1 else RunLen(line, k) - 1
  {
    if k > 0 && line[k] == line[k - 1] {
      CreditFromRun(line, k - 1);
    }
  }

  /** The largest value gameState records for piece `q` while scanning the first `n` cells
      of a line, or 0 when it records none. */
  function LineTally(line: seq<Piece>, q: Piece, n: nat): (t: nat)
    requires n <= |line|
    ensures t <= n
  {
    if n == 0 then 0
    else Max(LineTally(line, q, n - 1), if line[n - 1] == q then Credit(line, n - 1) else 0)
  }

  /** LineTally is the largest Credit on a cell of `q`, or 0 when no cell holds `q`. */
  lemma {:induction false} LineTallyIsMaxCredit(line: seq<Piece>, q: Piece, n: nat)
    requires n <= |line|
    ensures forall k {:trigger Credit(line, k)} :: 0 <= k < n && line[k] == q ==> Credit(line, k) <= LineTally(line, q, n)
    ensures LineTally(line, q, n) == 0
         || exists k :: 0 <= k < n && line[k] == q && Credit(line, k) == LineTally(line, q, n)
  {
    if n > 0 {
      LineTallyIsMaxCredit(line, q, n - 1);
    }
  }

  /** The length of the longest run of `q` among the first `n` cells of a line. */
  function LongestRun(line: seq<Piece>, q: Piece, n: nat): (t: nat)
    requires n <= |line|
    ensures t <= n
  {
    if n == 0 then 0
    else Max(LongestRun(line, q, n - 1), if line[n - 1] == q then RunLen(line, n - 1) else 0)
  }

  /** LongestRun is the largest RunLen on a cell of `q`, that is, the length of the longest
      run of `q`, or 0 when no cell holds `q`. */
  lemma {:induction false} LongestRunIsMaxRun(line: seq<Piece>, q: Piece, n: nat)
    requires n <= |line|
    ensures forall k {:trigger RunLen(line, k)} :: 0 <= k < n && line[k] == q ==> RunLen(line, k) <= LongestRun(line, q, n)
    ensures LongestRun(line, q, n) == 0
         || exists k :: 0 <= k < n && line[k] == q && RunLen(line, k) == LongestRun(line, q, n)
  {
    if n > 0 {
      LongestRunIsMaxRun(line, q, n - 1);
    }
  }

  /** The recorded tally never exceeds the longest run and falls short of it by at most one. */
  lemma {:induction false} TallyNearLongestRun(line: seq<Piece>, q: Piece, n: nat)
    requires n <= |line|
    ensures LineTally(line, q, n) <= LongestRun(line, q, n) <= LineTally(line, q, n) + 1
  {
    if n > 0 {
      TallyNearLongestRun(line, q, n - 1);
      CreditFromRun(line, n - 1);
    }
  }

  /** The line X O O O: O's run of three is tallied as two. */
  lemma UndercountExample()
    ensures LineTally([X, O, O, O], O, 4) == 2
    ensures LongestRun([X, O, O, O], O, 4) == 3
  {
    var line := [X, O, O, O];
    assert Credit(line, 1) == 0;
    assert Credit(line, 3) == 2;
    assert RunLen(line, 3) == 3;
  }

  /** The cells of `column`, bottom to top. */
  function Column(g: Grid, column: int): (line: seq<Piece>)
    requires HasShape(g) && 0 <= column < BOARD_COLS
    ensures |line| == BOARD_ROWS
  {
    seq(BOARD_ROWS, r requires 0 <= r < BOARD_ROWS => g[r][column])
  }

  /** Cell r of a column is the cell of row r. */
  lemma ColumnCells(g: Grid, column: int)
    requires HasShape(g) && 0 <= column < BOARD_COLS
    ensures forall r :: 0 <= r < BOARD_ROWS ==> Column(g, column)[r] == g[r][column]
  {
  }

  /** The largest line tally of `q` over the first `m` rows; a row holds BOARD_COLS cells, so
      no tally exceeds that. */
  function LinesTally(g: Grid, q: Piece, m: nat): (t: nat)
    requires HasShape(g) && m <= BOARD_ROWS
    ensures t <= BOARD_COLS
  {
    if m == 0 then 0
    else Max(LinesTally(g, q, m - 1), LineTally(g[m - 1], q, BOARD_COLS))
  }

  lemma {:induction false} LinesTallyIsMax(g: Grid, q: Piece, m: nat)
    requires HasShape(g) && m <= BOARD_ROWS
    ensures forall r {:trigger g[r]} :: 0 <= r < m ==> LineTally(g[r], q, BOARD_COLS) <= LinesTally(g, q, m)
    ensures LinesTally(g, q, m) == 0
         || exists r :: 0 <= r < m && LineTally(g[r], q, BOARD_COLS) == LinesTally(g, q, m)
  {
    if m > 0 {
      LinesTallyIsMax(g, q, m - 1);
    }
  }

  /** The largest line tally of `q` over the first `m` columns; a column holds BOARD_ROWS
      cells, so no tally exceeds that. */
  function ColumnsTally(g: Grid, q: Piece, m: nat): (t: nat)
    requires HasShape(g) && m <= BOARD_COLS
    ensures t <= BOARD_ROWS
  {
    if m == 0 then 0
    else Max(ColumnsTally(g, q, m - 1), LineTally(Column(g, m - 1), q, BOARD_ROWS))
  }

  lemma {:induction false} ColumnsTallyIsMax(g: Grid, q: Piece, m: nat)
    requires HasShape(g) && m <= BOARD_COLS
    ensures forall c {:trigger Column(g, c)} :: 0 <= c < m ==> LineTally(Column(g, c), q, BOARD_ROWS) <= ColumnsTally(g, q, m)
    ensures ColumnsTally(g, q, m) == 0
         || exists c :: 0 <= c < m && LineTally(Column(g, c), q, BOARD_ROWS) == ColumnsTally(g, q, m)
  {
    if m > 0 {
      ColumnsTallyIsMax(g, q, m - 1);
    }
  }

  /** gameState's final xMax (for q = X) or oMax (for q = O): the scan runs over the rows,
      bottom to top, and then over the columns, left to right, keeping one maximum across
      all of them. Diagonals are not scanned. */
  function Best(g: Grid, q: Piece): (t: nat)
    requires HasShape(g)
    ensures t <= Max(BOARD_ROWS, BOARD_COLS)
  {
    Max(LinesTally(g, q, BOARD_ROWS), ColumnsTally(g, q, BOARD_COLS))
  }

  /** Best is the largest tally of `q` over every row and every column. */
  lemma BestOverRowsAndColumns(g: Grid, q: Piece)
    requires HasShape(g)
    ensures forall r :: 0 <= r < BOARD_ROWS ==> LineTally(g[r], q, BOARD_COLS) <= Best(g, q)
    ensures forall c :: 0 <= c < BOARD_COLS ==> LineTally(Column(g, c), q, BOARD_ROWS) <= Best(g, q)
    ensures Best(g, q) == 0
         || (exists r :: 0 <= r < BOARD_ROWS && LineTally(g[r], q, BOARD_COLS) == Best(g, q))
         || (exists c :: 0 <= c < BOARD_COLS && LineTally(Column(g, c), q, BOARD_ROWS) == Best(g, q))
  {
    LinesTallyIsMax(g, q, BOARD_ROWS);
    ColumnsTallyIsMax(g, q, BOARD_COLS);
  }

  predicate HasBlank(g: Grid)
    requires HasShape(g)
  {
    exists r, c :: 0 <= r < BOARD_ROWS && 0 <= c < BOARD_COLS && g[r][c] == Blank
  }

  /** The result of gameState: Invalid while some cell is Blank; on a full board, Blank when
      the best tallies of X and O are equal, and otherwise the player whose tally is larger. */
  function Outcome(g: Grid): (r: Piece)
    requires HasShape(g)
    ensures r == Invalid <==> HasBlank(g)
  {
    if HasBlank(g) then Invalid
    else if Best(g, X) == Best(g, O) then Blank
    else if Best(g, X) > Best(g, O) then X
    else O
  }

  /** On a board, the game is unfinished exactly while some column still has room for a
      drop, that is, while some cell of the top row is Blank. */
  lemma OpenColumnIffHasBlank(g: Grid)
    requires IsBoard(g)
    ensures HasBlank(g) <==> exists c :: 0 <= c < BOARD_COLS && LowestBlank(g, c) < BOARD_ROWS
    ensures var top := g[BOARD_ROWS - 1]; HasBlank(g) <==> exists c :: 0 <= c < BOARD_COLS && top[c] == Blank
  {
    if HasBlank(g) {
      var r, c :| 0 <= r < BOARD_ROWS && 0 <= c < BOARD_COLS && g[r][c] == Blank;
      ColumnSplitsAtLowestBlank(g, c, r);
      ColumnSplitsAtLowestBlank(g, c, BOARD_ROWS - 1);
    }
    if exists c :: 0 <= c < BOARD_COLS && LowestBlank(g, c) < BOARD_ROWS {
      var c :| 0 <= c < BOARD_COLS && LowestBlank(g, c) < BOARD_ROWS;
      assert g[LowestBlank(g, c)][c] == Blank;
    }
  }

  // ---------------------------------------------------------------------------
  // The outcome against the true longest runs

  /** The longest run of `q` over the first `m` rows. */
  function LinesRun(g: Grid, q: Piece, m: nat): (t: nat)
    requires HasShape(g) && m <= BOARD_ROWS
    ensures t <= BOARD_COLS
  {
    if m == 0 then 0
    else Max(LinesRun(g, q, m - 1), LongestRun(g[m - 1], q, BOARD_COLS))
  }

  /** The longest run of `q` over the first `m` columns. */
  function ColumnsRun(g: Grid, q: Piece, m: nat): (t: nat)
    requires HasShape(g) && m <= BOARD_COLS
    ensures t <= BOARD_ROWS
  {
    if m == 0 then 0
    else Max(ColumnsRun(g, q, m - 1), LongestRun(Column(g, m - 1), q, BOARD_ROWS))
  }

  /** The length of the longest horizontal or vertical run of `q` on the board: the number
      the documentation of gameState says decides the game. */
  function BestRun(g: Grid, q: Piece): (t: nat)
    requires HasShape(g)
    ensures t <= Max(BOARD_ROWS, BOARD_COLS)
  {
    Max(LinesRun(g, q, BOARD_ROWS), ColumnsRun(g, q, BOARD_COLS))
  }

  lemma {:induction false} LinesTallyNearRun(g: Grid, q: Piece, m: nat)
    requires HasShape(g) && m <= BOARD_ROWS
    ensures LinesTally(g, q, m) <= LinesRun(g, q, m) <= LinesTally(g, q, m) + 1
  {
    if m > 0 {
      LinesTallyNearRun(g, q, m - 1);
      TallyNearLongestRun(g[m - 1], q, BOARD_COLS);
    }
  }

  lemma {:induction false} ColumnsTallyNearRun(g: Grid, q: Piece, m: nat)
    requires HasShape(g) && m <= BOARD_COLS
    ensures ColumnsTally(g, q, m) <= ColumnsRun(g, q, m) <= ColumnsTally(g, q, m) + 1
  {
    if m > 0 {
      ColumnsTallyNearRun(g, q, m - 1);
      TallyNearLongestRun(Column(g, m - 1), q, BOARD_ROWS);
    }
  }

  /** gameState's tally of a player is the longest run on the board or one less. */
  lemma BestNearBestRun(g: Grid, q: Piece)
    requires HasShape(g)
    ensures Best(g, q) <= BestRun(g, q) <= Best(g, q) + 1
  {
    LinesTallyNearRun(g, q, BOARD_ROWS);
    ColumnsTallyNearRun(g, q, BOARD_COLS);
  }

  /** A declared winner never has a shorter longest run than the other player. */
  lemma WinnerHasLongestRun(g: Grid)
    requires HasShape(g)
    ensures Outcome(g) == X ==> BestRun(g, X) >= BestRun(g, O)
    ensures Outcome(g) == O ==> BestRun(g, O) >= BestRun(g, X)
  {
    BestNearBestRun(g, X);
    BestNearBestRun(g, O);
  }

  /** On a full board, a longest run two or more cells longer than the other player's
      always wins; a margin of one may not (see UndercountDecidesGame). */
  lemma ClearMarginWins(g: Grid)
    requires HasShape(g) && !HasBlank(g)
    ensures BestRun(g, X) >= BestRun(g, O) + 2 ==> Outcome(g) == X
    ensures BestRun(g, O) >= BestRun(g, X) + 2 ==> Outcome(g) == O
  {
    BestNearBestRun(g, X);
    BestNearBestRun(g, O);
  }

  // ---------------------------------------------------------------------------
  // The two players are treated alike

  /** Exchanges X and O and leaves Blank and Invalid as they are. */
  function Swap(p: Piece): (s: Piece)
    ensures IsPlayer(p) <==> IsPlayer(s)
    ensures !IsPlayer(p) ==> s == p
    ensures IsPlayer(p) ==> s != p
  {
    match p
    case X => O
    case O => X
    case _ => p
  }

  function SwapLine(line: seq<Piece>): (s: seq<Piece>)
    ensures |s| == |line|
    ensures forall i :: 0 <= i < |line| ==> s[i] == Swap(line[i])
  {
    seq(|line|, i requires 0 <= i < |line| => Swap(line[i]))
  }

  function SwapGrid(g: Grid): (h: Grid)
    ensures |h| == |g|
    ensures forall r :: 0 <= r < |g| ==> h[r] == SwapLine(g[r])
  {
    seq(|g|, r requires 0 <= r < |g| => SwapLine(g[r]))
  }

  lemma SwapInjective(a: Piece, b: Piece)
    ensures Swap(a) == Swap(b) <==> a == b
  {
  }

  lemma {:induction false} CreditSwap(line: seq<Piece>, k: nat)
    requires k < |line|
    ensures Credit(SwapLine(line), k) == Credit(line, k)
  {
    if k > 0 {
      SwapInjective(line[k], line[k - 1]);
      CreditSwap(line, k - 1);
    }
  }

  lemma {:induction false} LineTallySwap(line: seq<Piece>, q: Piece, n: nat)
    requires n <= |line|
    ensures LineTally(SwapLine(line), Swap(q), n) == LineTally(line, q, n)
  {
    if n > 0 {
      LineTallySwap(line, q, n - 1);
      SwapInjective(line[n - 1], q);
      CreditSwap(line, n - 1);
    }
  }

  lemma {:induction false} LinesTallySwap(g: Grid, q: Piece, m: nat)
    requires HasShape(g) && HasShape(SwapGrid(g)) && m <= BOARD_ROWS
    ensures LinesTally(SwapGrid(g), Swap(q), m) == LinesTally(g, q, m)
  {
    if m > 0 {
      LinesTallySwap(g, q, m - 1);
      LineTallySwap(g[m - 1], q, BOARD_COLS);
      assert SwapGrid(g)[m - 1] == SwapLine(g[m - 1]);
    }
  }

  lemma ColumnSwap(g: Grid, column: int)
    requires HasShape(g) && HasShape(SwapGrid(g)) && 0 <= column < BOARD_COLS
    ensures Column(SwapGrid(g), column) == SwapLine(Column(g, column))
  {
  }

  lemma {:induction false} ColumnsTallySwap(g: Grid, q: Piece, m: nat)
    requires HasShape(g) && HasShape(SwapGrid(g)) && m <= BOARD_COLS
    ensures ColumnsTally(SwapGrid(g), Swap(q), m) == ColumnsTally(g, q, m)
  {
    if m > 0 {
      ColumnsTallySwap(g, q, m - 1);
      ColumnSwap(g, m - 1);
      LineTallySwap(Column(g, m - 1), q, BOARD_ROWS);
    }
  }

  lemma HasBlankSwap(g: Grid)
    requires HasShape(g) && HasShape(SwapGrid(g))
    ensures HasBlank(SwapGrid(g)) == HasBlank(g)
  {
    var h := SwapGrid(g);
    assert forall r, c :: 0 <= r < BOARD_ROWS && 0 <= c < BOARD_COLS ==> (h[r][c] == Blank <==> g[r][c] == Blank);
  }

  lemma BestSwap(g: Grid, q: Piece)
    requires HasShape(g)
    ensures HasShape(SwapGrid(g))
    ensures Best(SwapGrid(g), Swap(q)) == Best(g, q)
  {
    LinesTallySwap(g, q, BOARD_ROWS);
    ColumnsTallySwap(g, q, BOARD_COLS);
  }

  /** Exchanging every X with O exchanges the outcome of the game the same way. */
  lemma OutcomeSwap(g: Grid)
    requires HasShape(g)
    ensures HasShape(SwapGrid(g))
    ensures Outcome(SwapGrid(g)) == Swap(Outcome(g))
  {
    BestSwap(g, X);
    BestSwap(g, O);
    HasBlankSwap(g);
  }

  // ---------------------------------------------------------------------------
  // Finished boards of the engine's unit tests

  /** X X X X along the bottom beats O's best tally of 2. */
  lemma XWinsBoard()
    ensures Outcome([[X, X, X, X], [O, O, X, O], [O, O, X, O]]) == X
  {
    var g := [[X, X, X, X], [O, O, X, O], [O, O, X, O]];
    assert !HasBlank(g);
    XWinsRows();
    XWinsColumns();
  }

  lemma XWinsRows()
    ensures LinesTally([[X, X, X, X], [O, O, X, O], [O, O, X, O]], X, BOARD_ROWS) == 4
    ensures LinesTally([[X, X, X, X], [O, O, X, O], [O, O, X, O]], O, BOARD_ROWS) == 2
  {
    var g := [[X, X, X, X], [O, O, X, O], [O, O, X, O]];
    assert LineTally(g[0], X, BOARD_COLS) == 4 && LineTally(g[0], O, BOARD_COLS) == 0;
    assert LineTally(g[1], X, BOARD_COLS) == 0 && LineTally(g[1], O, BOARD_COLS) == 2;
    assert LineTally(g[2], X, BOARD_COLS) == 0 && LineTally(g[2], O, BOARD_COLS) == 2;
  }

  lemma XWinsColumns()
    ensures ColumnsTally([[X, X, X, X], [O, O, X, O], [O, O, X, O]], X, BOARD_COLS) == 3
    ensures ColumnsTally([[X, X, X, X], [O, O, X, O], [O, O, X, O]], O, BOARD_COLS) == 1
  {
    var g := [[X, X, X, X], [O, O, X, O], [O, O, X, O]];
    assert Column(g, 0) == [X, O, O] && Column(g, 1) == [X, O, O];
    assert Column(g, 2) == [X, X, X] && Column(g, 3) == [X, O, O];
  }

  /** X X O O on top and O O O down the last column: O's column run of 3 beats X's 2. */
  lemma OWinsBoard()
    ensures Outcome([[X, O, X, O], [O, X, X, O], [X, X, O, O]]) == O
  {
    var g := [[X, O, X, O], [O, X, X, O], [X, X, O, O]];
    assert !HasBlank(g);
    OWinsRows();
    OWinsColumns();
  }

  lemma OWinsRows()
    ensures LinesTally([[X, O, X, O], [O, X, X, O], [X, X, O, O]], X, BOARD_ROWS) == 2
    ensures LinesTally([[X, O, X, O], [O, X, X, O], [X, X, O, O]], O, BOARD_ROWS) == 1
  {
    var g := [[X, O, X, O], [O, X, X, O], [X, X, O, O]];
    assert LineTally(g[0], X, BOARD_COLS) == 1 && LineTally(g[0], O, BOARD_COLS) == 0;
    assert LineTally(g[1], X, BOARD_COLS) == 1 && LineTally(g[1], O, BOARD_COLS) == 1;
    assert LineTally(g[2], X, BOARD_COLS) == 2 && LineTally(g[2], O, BOARD_COLS) == 1;
  }

  lemma OWinsColumns()
    ensures ColumnsTally([[X, O, X, O], [O, X, X, O], [X, X, O, O]], X, BOARD_COLS) == 2
    ensures ColumnsTally([[X, O, X, O], [O, X, X, O], [X, X, O, O]], O, BOARD_COLS) == 3
  {
    var g := [[X, O, X, O], [O, X, X, O], [X, X, O, O]];
    assert Column(g, 0) == [X, O, X] && Column(g, 1) == [O, X, X];
    assert Column(g, 2) == [X, X, O] && Column(g, 3) == [O, O, O];
  }

  /** A full bottom row of X and a full middle row of O: a tie. */
  lemma RowsTieBoard()
    ensures Outcome([[X, X, X, X], [O, O, O, O], [X, O, X, O]]) == Blank
  {
    var g := [[X, X, X, X], [O, O, O, O], [X, O, X, O]];
    assert !HasBlank(g);
    RowsTieRows();
    RowsTieColumns();
  }

  lemma RowsTieRows()
    ensures LinesTally([[X, X, X, X], [O, O, O, O], [X, O, X, O]], X, BOARD_ROWS) == 4
    ensures LinesTally([[X, X, X, X], [O, O, O, O], [X, O, X, O]], O, BOARD_ROWS) == 4
  {
    var g := [[X, X, X, X], [O, O, O, O], [X, O, X, O]];
    assert LineTally(g[0], X, BOARD_COLS) == 4 && LineTally(g[0], O, BOARD_COLS) == 0;
    assert LineTally(g[1], X, BOARD_COLS) == 0 && LineTally(g[1], O, BOARD_COLS) == 4;
    assert LineTally(g[2], X, BOARD_COLS) == 1 && LineTally(g[2], O, BOARD_COLS) == 0;
  }

  lemma RowsTieColumns()
    ensures ColumnsTally([[X, X, X, X], [O, O, O, O], [X, O, X, O]], X, BOARD_COLS) == 1
    ensures ColumnsTally([[X, X, X, X], [O, O, O, O], [X, O, X, O]], O, BOARD_COLS) == 1
  {
    var g := [[X, X, X, X], [O, O, O, O], [X, O, X, O]];
    assert Column(g, 0) == [X, O, X] && Column(g, 1) == [X, O, O];
    assert Column(g, 2) == [X, O, X] && Column(g, 3) == [X, O, O];
  }

  /** Full columns of X, O, X, O: a tie. */
  lemma ColumnsTieBoard()
    ensures Outcome([[X, O, X, O], [X, O, X, O], [X, O, X, O]]) == Blank
  {
    var g := [[X, O, X, O], [X, O, X, O], [X, O, X, O]];
    assert !HasBlank(g);
    ColumnsTieRows();
    ColumnsTieColumns();
  }

  lemma ColumnsTieRows()
    ensures LinesTally([[X, O, X, O], [X, O, X, O], [X, O, X, O]], X, BOARD_ROWS) == 1
    ensures LinesTally([[X, O, X, O], [X, O, X, O], [X, O, X, O]], O, BOARD_ROWS) == 0
  {
    var g := [[X, O, X, O], [X, O, X, O], [X, O, X, O]];
    assert LineTally(g[0], X, BOARD_COLS) == 1 && LineTally(g[0], O, BOARD_COLS) == 0;
    assert LineTally(g[1], X, BOARD_COLS) == 1 && LineTally(g[1], O, BOARD_COLS) == 0;
    assert LineTally(g[2], X, BOARD_COLS) == 1 && LineTally(g[2], O, BOARD_COLS) == 0;
  }

  lemma ColumnsTieColumns()
    ensures ColumnsTally([[X, O, X, O], [X, O, X, O], [X, O, X, O]], X, BOARD_COLS) == 3
    ensures ColumnsTally([[X, O, X, O], [X, O, X, O], [X, O, X, O]], O, BOARD_COLS) == 3
  {
    var g := [[X, O, X, O], [X, O, X, O], [X, O, X, O]];
    assert Column(g, 0) == [X, X, X] && Column(g, 1) == [O, O, O];
    assert Column(g, 2) == [X, X, X] && Column(g, 3) == [O, O, O];
  }

  /** A full board on which X and O both have a longest run of 3, yet X is declared the
      winner: O's run in the middle row starts after an X and is tallied as 2. */
  lemma UndercountDecidesGame()
    ensures BestRun([[X, X, X, O], [X, O, O, O], [O, O, X, X]], X) == 3
    ensures BestRun([[X, X, X, O], [X, O, O, O], [O, O, X, X]], O) == 3
    ensures Outcome([[X, X, X, O], [X, O, O, O], [O, O, X, X]]) == X
  {
    var g := [[X, X, X, O], [X, O, O, O], [O, O, X, X]];
    assert !HasBlank(g);
    UndercountRows();
    UndercountColumns();
    UndercountRunRows();
    UndercountRunColumns();
  }

  lemma UndercountRows()
    ensures LinesTally([[X, X, X, O], [X, O, O, O], [O, O, X, X]], X, BOARD_ROWS) == 3
    ensures LinesTally([[X, X, X, O], [X, O, O, O], [O, O, X, X]], O, BOARD_ROWS) == 2
  {
    var g := [[X, X, X, O], [X, O, O, O], [O, O, X, X]];
    assert LineTally(g[0], X, BOARD_COLS) == 3 && LineTally(g[0], O, BOARD_COLS) == 0;
    assert LineTally(g[1], X, BOARD_COLS) == 1 && LineTally(g[1], O, BOARD_COLS) == 2;
    assert LineTally(g[2], X, BOARD_COLS) == 1 && LineTally(g[2], O, BOARD_COLS) == 2;
  }

  lemma UndercountColumns()
    ensures ColumnsTally([[X, X, X, O], [X, O, O, O], [O, O, X, X]], X, BOARD_COLS) == 2
    ensures ColumnsTally([[X, X, X, O], [X, O, O, O], [O, O, X, X]], O, BOARD_COLS) == 2
  {
    var g := [[X, X, X, O], [X, O, O, O], [O, O, X, X]];
    assert Column(g, 0) == [X, X, O] && Column(g, 1) == [X, O, O];
    assert Column(g, 2) == [X, O, X] && Column(g, 3) == [O, O, X];
  }

  lemma UndercountRunRows()
    ensures LinesRun([[X, X, X, O], [X, O, O, O], [O, O, X, X]], X, BOARD_ROWS) == 3
    ensures LinesRun([[X, X, X, O], [X, O, O, O], [O, O, X, X]], O, BOARD_ROWS) == 3
  {
    var g := [[X, X, X, O], [X, O, O, O], [O, O, X, X]];
    assert LongestRun(g[0], X, BOARD_COLS) == 3 && LongestRun(g[0], O, BOARD_COLS) == 1;
    assert LongestRun(g[1], X, BOARD_COLS) == 1 && LongestRun(g[1], O, BOARD_COLS) == 3;
    assert LongestRun(g[2], X, BOARD_COLS) == 2 && LongestRun(g[2], O, BOARD_COLS) == 2;
  }

  lemma UndercountRunColumns()
    ensures ColumnsRun([[X, X, X, O], [X, O, O, O], [O, O, X, X]], X, BOARD_COLS) == 2
    ensures ColumnsRun([[X, X, X, O], [X, O, O, O], [O, O, X, X]], O, BOARD_COLS) == 2
  {
    var g := [[X, X, X, O], [X, O, O, O], [O, O, X, X]];
    assert Column(g, 0) == [X, X, O] && Column(g, 1) == [X, O, O];
    assert Column(g, 2) == [X, O, X] && Column(g, 3) == [O, O, X];
  }
}
