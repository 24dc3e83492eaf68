/** The Piezas engine: a board object whose grid and turn change in place. */
module Engine {
  import opened Rules

  class Piezas {
    var board: Grid
    var turn: Piece

    /** The object invariant: the grid is a board (see Rules.IsBoard) and a player is to move. */
    ghost predicate Valid()
      reads this
    {
      IsBoard(board) && IsPlayer(turn)
    }

    /** An empty BOARD_ROWS x BOARD_COLS board with X to move. The grid is first sized, with
        contents the model leaves open, and then cleared by Reset. */
    constructor ()
      ensures Valid()
      ensures turn == X
      ensures board == EmptyGrid()
    {
      var fill: Piece := *;
      board := seq(BOARD_ROWS, _ => seq(BOARD_COLS, _ => fill));
      turn := X;
      new;
      Reset();
    }

    /** Sets every cell to Blank; the size of the grid and the turn stay as they were. */
    method Reset()
      requires HasShape(board)
      modifies this`board
      ensures IsBoard(board)
      ensures forall r, c :: 0 <= r < BOARD_ROWS && 0 <= c < BOARD_COLS ==> board[r][c] == Blank
      ensures board == EmptyGrid()
      ensures turn == old(turn)
    {
      var i := 0;
      while i < BOARD_ROWS
        invariant 0 <= i <= BOARD_ROWS
        invariant HasShape(board)
        invariant forall r, c :: 0 <= r < i && 0 <= c < BOARD_COLS ==> board[r][c] == Blank
      {
        var j := 0;
        while j < BOARD_COLS
          invariant 0 <= j <= BOARD_COLS
          invariant HasShape(board)
          invariant forall r, c :: 0 <= r < i && 0 <= c < BOARD_COLS ==> board[r][c] == Blank
          invariant forall c :: 0 <= c < j ==> board[i][c] == Blank
        {
          board := Place(board, i, j, Blank);
          j := j + 1;
        }
        i := i + 1;
      }
      AllBlankIsEmptyGrid(board);
    }

    /** Drops the current player's piece into `column`. Out of range: returns Invalid and leaves
        the board alone. In range with a Blank cell: the piece lands on the lowest Blank of the
        column and is returned. Full column: returns Blank and leaves the board alone. The turn
        passes to the other player on every path. */
    method DropPiece(column: int) returns (r: Piece)
      requires Valid()
      modifies this
      ensures Valid()
      ensures turn == Toggle(old(turn))
      ensures !(0 <= column < BOARD_COLS) ==> r == Invalid && board == old(board)
      ensures 0 <= column < BOARD_COLS && LowestBlank(old(board), column) < BOARD_ROWS ==>
                r == old(turn) && board == Place(old(board), LowestBlank(old(board), column), column, old(turn))
      ensures 0 <= column < BOARD_COLS && LowestBlank(old(board), column) == BOARD_ROWS ==>
                r == Blank && board == old(board)
    {
      if column < 0 || column >= BOARD_COLS {
        turn := Toggle(turn);
        return Invalid;
      }

      var i := 0;
      while i < BOARD_ROWS
        invariant 0 <= i <= BOARD_ROWS
        invariant board == old(board) && turn == old(turn)
        invariant forall j :: 0 <= j < i ==> board[j][column] != Blank
      {
        if board[i][column] == Blank {
          DropKeepsBoard(board, column, turn);
          board := Place(board, i, column, turn);
          turn := Toggle(turn);
          return board[i][column];
        }
        i := i + 1;
      }

      turn := Toggle(turn);
      return Blank;
    }

    /** The piece at [row][column], or Invalid when either coordinate is out of range. */
    method PieceAt(row: int, column: int) returns (r: Piece)
      requires Valid()
      ensures r == Invalid <==> !InRange(row, column)
      ensures InRange(row, column) ==> r == board[row][column]
    {
      if column < 0 || column >= BOARD_COLS || row < 0 || row >= BOARD_ROWS {
        return Invalid;
      }
      return board[row][column];
    }

    /** The state of the game, as Rules.Outcome defines it: Invalid while a cell is Blank, and
        on a full board the comparison of the best tallies of X and O. */
    method GameState() returns (r: Piece)
      requires HasShape(board)
      ensures r == Outcome(board)
    {
      // any Blank cell means the game is not over
      var i := 0;
      while i < BOARD_ROWS
        invariant 0 <= i <= BOARD_ROWS
        invariant forall a, b :: 0 <= a < i && 0 <= b < BOARD_COLS ==> board[a][b] != Blank
      {
        var j := 0;
        while j < BOARD_COLS
          invariant 0 <= j <= BOARD_COLS
          invariant forall a, b :: 0 <= a < i && 0 <= b < BOARD_COLS ==> board[a][b] != Blank
          invariant forall b :: 0 <= b < j ==> board[i][b] != Blank
        {
          if board[i][j] == Blank {
            return Invalid;
          }
          j := j + 1;
        }
        i := i + 1;
      }

      var xMax, oMax := RowTallies();
      xMax, oMax := ColumnTallies(xMax, oMax);

      if xMax == oMax {
        r := Blank;
      } else if xMax > oMax {
        r := X;
      } else {
        r := O;
      }
    }

    /** gameState's horizontal scan: xMax and oMax after every row has been scanned. */
    method RowTallies() returns (xMax: nat, oMax: nat)
      requires HasShape(board)
      ensures xMax == LinesTally(board, X, BOARD_ROWS)
      ensures oMax == LinesTally(board, O, BOARD_ROWS)
    {
      xMax, oMax := 0, 0;
      var row := 0;
      while row < BOARD_ROWS
        invariant 0 <= row <= BOARD_ROWS
        invariant xMax == LinesTally(board, X, row) && oMax == LinesTally(board, O, row)
      {
        ghost var line, xBefore, oBefore := board[row], xMax, oMax;
        var curMax := 0;
        var p := board[row][0];
        var c := 0;
        while c < BOARD_COLS
          invariant 0 <= c <= BOARD_COLS
          invariant p == line[if c == 0 then 0 else c - 1]
          invariant curMax == if c == 0 then 0 else Credit(line, c - 1)
          invariant xMax == Max(xBefore, LineTally(line, X, c))
          invariant oMax == Max(oBefore, LineTally(line, O, c))
        {
          if board[row][c] == p {
            curMax := curMax + 1;
            if p == X && curMax > xMax {
              xMax := curMax;
            } else if p == O && curMax > oMax {
              oMax := curMax;
            }
          } else {
            curMax := 0;
            p := board[row][c];
          }
          c := c + 1;
        }
        row := row + 1;
      }
    }

    /** gameState's vertical scan: continues the maxima `xStart` and `oStart` of the horizontal
        scan over every column. */
    method ColumnTallies(xStart: nat, oStart: nat) returns (xMax: nat, oMax: nat)
      requires HasShape(board)
      ensures xMax == Max(xStart, ColumnsTally(board, X, BOARD_COLS))
      ensures oMax == Max(oStart, ColumnsTally(board, O, BOARD_COLS))
    {
      xMax, oMax := xStart, oStart;
      var col := 0;
      while col < BOARD_COLS
        invariant 0 <= col <= BOARD_COLS
        invariant xMax == Max(xStart, ColumnsTally(board, X, col))
        invariant oMax == Max(oStart, ColumnsTally(board, O, col))
      {
        ghost var line, xBefore, oBefore := Column(board, col), xMax, oMax;
        var curMax := 0;
        var p := board[0][col];
        var row := 0;
        while row < BOARD_ROWS
          invariant 0 <= row <= BOARD_ROWS
          invariant row == 0 ==> p == line[0] && curMax == 0
          invariant row > 0 ==> p == line[row - 1] && curMax == Credit(line, row - 1)
          invariant xMax == Max(xBefore, LineTally(line, X, row))
          invariant oMax == Max(oBefore, LineTally(line, O, row))
        {
          assert line[row] == board[row][col];
          if board[row][col] == p {
            curMax := curMax + 1;
            if p == X && curMax > xMax {
              xMax := curMax;
            } else if p == O && curMax > oMax {
              oMax := curMax;
            }
          } else {
            curMax := 0;
            p := board[row][col];
          }
          row := row + 1;
        }
        col := col + 1;
      }
    }
  }
}

/** Client scenarios: the move sequences of the engine's unit tests, with the results the
    specifications above determine for them. */
module Scenarios {
  import opened Rules
  import opened Engine

  /** Three drops fill column 0 with X, O, X; a fourth finds the column full and returns
      Blank; the columns -1 and BOARD_COLS are out of range and return Invalid. */
  method DropPieceScenario() returns (results: seq<Piece>)
    ensures results == [X, O, X, Blank, Invalid, Invalid]
  {
    var p := new Piezas();
    var a := p.DropPiece(0);
    var b := p.DropPiece(0);
    var c := p.DropPiece(0);
    var d := p.DropPiece(0);
    var e := p.DropPiece(-1);
    var f := p.DropPiece(BOARD_COLS);
    results := [a, b, c, d, e, f];
  }

  /** After drops into columns 0, 0 and 1: X and O stacked in column 0, X at the bottom of
      column 1, the top right cell Blank, and the four out-of-range queries Invalid. */
  method PieceAtScenario() returns (results: seq<Piece>)
    ensures results == [X, O, X, Blank, Invalid, Invalid, Invalid, Invalid]
  {
    var p := new Piezas();
    var r := p.DropPiece(0);
    r := p.DropPiece(0);
    r := p.DropPiece(1);
    var a := p.PieceAt(0, 0);
    var b := p.PieceAt(1, 0);
    var c := p.PieceAt(0, 1);
    var d := p.PieceAt(BOARD_ROWS - 1, BOARD_COLS - 1);
    var e := p.PieceAt(-1, 0);
    var f := p.PieceAt(0, -1);
    var g := p.PieceAt(BOARD_ROWS, 0);
    var h := p.PieceAt(0, BOARD_COLS);
    results := [a, b, c, d, e, f, g, h];
  }

  /** Drops into columns 1, 0, 2 and 3 leave the upper rows Blank: the game is not over. */
  method UnfinishedScenario() returns (state: Piece)
    ensures state == Invalid
  {
    var p := new Piezas();
    var r := p.DropPiece(1);
    r := p.DropPiece(0);
    r := p.DropPiece(2);
    r := p.DropPiece(3);
    assert p.board[1][0] == Blank;
    state := p.GameState();
  }

  /** Not one of the unit tests: an out-of-range drop still costs X the turn, and a reset
      that follows keeps it, so the first drop on the cleared board is O's. */
  method ResetKeepsTurnScenario() returns (placed: Piece)
    ensures placed == O
  {
    var p := new Piezas();
    var r := p.DropPiece(BOARD_COLS);
    p.Reset();
    placed := p.DropPiece(0);
  }
}
