/**
 * The game state: the board (updated in place), whose turn it is and the
 * log of played moves, with move application, undo and move generation.
 */
module Engine {
  import opened Pieces
  import opened Moves
  import opened Rules

  /** The square (r, c) of b replaced by sq. */
  function Put(b: Board, r: int, c: int, sq: Square): (b': Board)
    requires IsBoard(b) && OnBoard(r, c)
    ensures IsBoard(b')
    ensures forall x, y :: OnBoard(x, y) ==> b'[x][y] == if x == r && y == c then sq else b[x][y]
  {
    b[r := b[r][c := sq]]
  }

  /** The board after a move: the start square emptied, then the moved piece put on the end square. */
  function Apply(b: Board, m: Move): (b': Board)
    requires IsBoard(b) && InRange(m)
    ensures IsBoard(b')
    ensures b'[m.endRow][m.endCol] == m.pieceMoved
    ensures (m.startRow, m.startCol) != (m.endRow, m.endCol) ==> b'[m.startRow][m.startCol] == Empty
    ensures forall x, y ::
      (OnBoard(x, y) && (x, y) != (m.startRow, m.startCol) && (x, y) != (m.endRow, m.endCol))
      ==> b'[x][y] == b[x][y]
  {
    Put(Put(b, m.startRow, m.startCol, Empty), m.endRow, m.endCol, m.pieceMoved)
  }

  /** The board after taking a move back: the moved piece returned, then the captured one. */
  function Revert(b: Board, m: Move): (b': Board)
    requires IsBoard(b) && InRange(m)
    ensures IsBoard(b')
    ensures b'[m.endRow][m.endCol] == m.pieceCaptured
    ensures (m.startRow, m.startCol) != (m.endRow, m.endCol) ==> b'[m.startRow][m.startCol] == m.pieceMoved
    ensures forall x, y ::
      (OnBoard(x, y) && (x, y) != (m.startRow, m.startCol) && (x, y) != (m.endRow, m.endCol))
      ==> b'[x][y] == b[x][y]
  {
    Put(Put(b, m.startRow, m.startCol, m.pieceMoved), m.endRow, m.endCol, m.pieceCaptured)
  }

  /** Taking back a move built from a board gives that board back. */
  lemma RevertApply(b: Board, m: Move)
    requires IsBoard(b) && InRange(m)
    requires m == MoveOf(m.startRow, m.startCol, m.endRow, m.endCol, b)
    ensures Revert(Apply(b, m), m) == b
  {
    var b' := Revert(Apply(b, m), m);
    forall x | 0 <= x < 8 ensures b'[x] == b[x] {
      assert forall y :: 0 <= y < 8 ==> b'[x][y] == b[x][y];
    }
  }

  class GameState {
    var board: array2<Square>
    var whiteToMove: bool
    var moveLog: seq<Move>

    /** The contents of the board as a value. */
    ghost var Squares: Board

    /**
     * The board is 8 by 8 and holds Squares, every logged move lies on it,
     * and white is to move exactly when an even number of moves has been played.
     */
    ghost predicate Valid()
      reads this, board
    {
      && board.Length0 == 8 && board.Length1 == 8
      && IsBoard(Squares)
      && (forall r, c :: OnBoard(r, c) ==> Squares[r][c] == board[r, c])
      && (forall m :: m in moveLog ==> InRange(m))
      && (whiteToMove <==> |moveLog| % 2 == 0)
    }

    /** The starting position, white to move, nothing played. */
    constructor ()
      ensures Valid() && fresh(board)
      ensures Squares == InitialBoard()
      ensures whiteToMove && moveLog == []
    {
      var init := InitialBoard();
      board := new Square[8, 8]((r, c) requires 0 <= r < 8 && 0 <= c < 8 => init[r][c]);
      whiteToMove := true;
      moveLog := [];
      Squares := init;
    }

    /** A move from (sr, sc) to (er, ec), recording the pieces now on both squares. */
    function BuildMove(sr: int, sc: int, er: int, ec: int): (m: Move)
      reads this, board
      requires Valid() && OnBoard(sr, sc) && OnBoard(er, ec)
      ensures m == MoveOf(sr, sc, er, ec, Squares)
    {
      Move(sr, sc, er, ec, board[sr, sc], board[er, ec])
    }

    /**
     * Plays a move without checking it: the start square is emptied, the
     * moved piece is put on the end square, the move is logged and the turn
     * passes to the other side.
     */
    method MakeMove(move: Move)
      requires Valid() && InRange(move)
      modifies this, board
      ensures Valid() && board == old(board)
      ensures Squares == Apply(old(Squares), move)
      ensures board[move.endRow, move.endCol] == move.pieceMoved
      ensures (move.startRow, move.startCol) != (move.endRow, move.endCol) ==>
        board[move.startRow, move.startCol] == Empty
      ensures forall r, c ::
        (OnBoard(r, c) && (r, c) != (move.startRow, move.startCol) && (r, c) != (move.endRow, move.endCol))
        ==> board[r, c] == old(board[r, c])
      ensures moveLog == old(moveLog) + [move]
      ensures whiteToMove == !old(whiteToMove)
    {
      board[move.startRow, move.startCol] := Empty;
      board[move.endRow, move.endCol] := move.pieceMoved;
      moveLog := moveLog + [move];
      whiteToMove := !whiteToMove;
      Squares := Apply(Squares, move);
    }

    /**
     * Takes back the last logged move, if there is one: the moved piece
     * returns to its start square, the captured piece (or nothing) to the end
     * square, the move leaves the log and the turn passes back.
     */
    method UndoMove()
      requires Valid()
      modifies this, board
      ensures Valid() && board == old(board)
      ensures old(moveLog) == [] ==>
        Squares == old(Squares) && moveLog == [] && whiteToMove == old(whiteToMove)
      ensures old(moveLog) != [] ==>
        var last := old(moveLog)[|old(moveLog)| - 1];
        && Squares == Revert(old(Squares), last)
        && moveLog == old(moveLog)[..|old(moveLog)| - 1]
        && whiteToMove == !old(whiteToMove)
    {
      if |moveLog| != 0 {
        var move := moveLog[|moveLog| - 1];
        assert move in moveLog;
        moveLog := moveLog[..|moveLog| - 1];
        board[move.startRow, move.startCol] := move.pieceMoved;
        board[move.endRow, move.endCol] := move.pieceCaptured;
        whiteToMove := !whiteToMove;
        Squares := Revert(Squares, move);
      }
    }

    /** A pawn of the side to move never stands on the row it walks towards. */
    ghost predicate CanGenerate()
      reads this, board
      requires Valid()
    {
      PawnsCanStep(Squares, whiteToMove)
    }

    /**
     * The pawn moves from (r, c), appended to `moves`: forward one or two
     * squares for the side to move, then diagonal captures.
     */
    method GetPawnMoves(r: int, c: int, moves: seq<Move>) returns (out: seq<Move>)
      requires Valid() && OnBoard(r, c)
      requires if whiteToMove then r >= 1 else r <= 6
      ensures out == moves + PawnMoves(Squares, r, c, whiteToMove)
    {
      ghost var advances := PawnAdvances(Squares, r, c, whiteToMove);
      ghost var captures := PawnCaptures(Squares, r, c, whiteToMove, 7);
      out := GetPawnAdvances(r, c, moves);
      out := GetPawnCaptures(r, c, out);
      AppendAssoc(moves, advances, captures);
    }

    /** The one- and two-square advances of the pawn on (r, c), appended to `moves`. */
    method GetPawnAdvances(r: int, c: int, moves: seq<Move>) returns (out: seq<Move>)
      requires Valid() && OnBoard(r, c)
      requires if whiteToMove then r >= 1 else r <= 6
      ensures out == moves + PawnAdvances(Squares, r, c, whiteToMove)
    {
      out := moves;
      if whiteToMove {
        if board[r - 1, c] == Empty {
          out := out + [BuildMove(r, c, r - 1, c)];
          if r == 6 && board[r - 2, c] == Empty {
            out := out + [BuildMove(r, c, r - 2, c)];
          }
        }
      }
      if !whiteToMove {
        if board[r + 1, c] == Empty {
          out := out + [BuildMove(r, c, r + 1, c)];
          if r == 1 && board[r + 2, c] == Empty {
            out := out + [BuildMove(r, c, r + 2, c)];
          }
        }
      }
    }

    /**
     * The diagonal captures of the pawn on (r, c), left then right, appended
     * to `moves`; the right-hand one is only looked at while c + 1 < 7.
     */
    method GetPawnCaptures(r: int, c: int, moves: seq<Move>) returns (out: seq<Move>)
      requires Valid() && OnBoard(r, c)
      requires if whiteToMove then r >= 1 else r <= 6
      ensures out == moves + PawnCaptures(Squares, r, c, whiteToMove, 7)
    {
      out := moves;
      if whiteToMove {
        if c - 1 >= 0 {
          if HasColour(board[r - 1, c - 1], Black) {
            out := out + [BuildMove(r, c, r - 1, c - 1)];
          }
        }
        if c + 1 < 7 {
          if HasColour(board[r - 1, c + 1], Black) {
            out := out + [BuildMove(r, c, r - 1, c + 1)];
          }
        }
      }
      if !whiteToMove {
        if c - 1 >= 0 {
          if HasColour(board[r + 1, c - 1], White) {
            out := out + [BuildMove(r, c, r + 1, c - 1)];
          }
        }
        if c + 1 < 7 {
          if HasColour(board[r + 1, c + 1], White) {
            out := out + [BuildMove(r, c, r + 1, c + 1)];
          }
        }
      }
    }

    /**
     * Walks one direction (dr, dc) from (r, c), at most `reach` steps: empty
     * squares are taken, an enemy piece is taken and ends the walk, a
     * friendly piece or the edge of the board ends it.
     */
    method WalkRay(r: int, c: int, dr: int, dc: int, enemy: Colour, reach: int, moves: seq<Move>)
      returns (out: seq<Move>)
      requires Valid() && OnBoard(r, c)
      ensures out == moves + Ray(Squares, r, c, dr, dc, enemy, 1, reach)
    {
      ghost var b := Squares;
      out := moves;
      var i := 1;
      while i <= reach
        invariant 1 <= i
        invariant out + Ray(b, r, c, dr, dc, enemy, i, reach) == moves + Ray(b, r, c, dr, dc, enemy, 1, reach)
      {
        var endRow := r + dr * i;
        var endCol := c + dc * i;
        ghost var rest := Ray(b, r, c, dr, dc, enemy, i, reach);
        if 0 <= endRow < 8 && 0 <= endCol < 8 {
          var endPiece := board[endRow, endCol];
          var move := BuildMove(r, c, endRow, endCol);
          if endPiece == Empty {
            assert rest == [move] + Ray(b, r, c, dr, dc, enemy, i + 1, reach);
            AppendAssoc(out, [move], Ray(b, r, c, dr, dc, enemy, i + 1, reach));
            out := out + [move];
          } else if endPiece.colour == enemy {
            assert rest == [move];
            out := out + [move];
            break;
          } else {
            assert rest == [];
            break;
          }
        } else {
          assert rest == [];
          break;
        }
        i := i + 1;
      }
    }

    /** Walks each of the directions in turn, appending what each ray reaches. */
    method SlideAlong(r: int, c: int, directions: seq<(int, int)>, reach: int, moves: seq<Move>)
      returns (out: seq<Move>)
      requires Valid() && OnBoard(r, c)
      ensures out == moves + Rays(Squares, r, c, EnemyColour(whiteToMove), directions, reach)
    {
      var enemy := EnemyColour(whiteToMove);
      ghost var b := Squares;
      out := moves;
      for n := 0 to |directions|
        invariant out == moves + Rays(b, r, c, enemy, directions[..n], reach)
      {
        var d := directions[n];
        ghost var done := Rays(b, r, c, enemy, directions[..n], reach);
        ghost var ray := Ray(b, r, c, d.0, d.1, enemy, 1, reach);
        assert directions[..n + 1][..n] == directions[..n];
        assert Rays(b, r, c, enemy, directions[..n + 1], reach) == done + ray;
        out := WalkRay(r, c, d.0, d.1, enemy, reach, out);
        AppendAssoc(moves, done, ray);
      }
      assert directions[..|directions|] == directions;
    }

    method GetRookMoves(r: int, c: int, moves: seq<Move>) returns (out: seq<Move>)
      requires Valid() && OnBoard(r, c)
      ensures out == moves + RookMoves(Squares, r, c, whiteToMove)
    {
      out := SlideAlong(r, c, ROOK_DIRECTIONS, 7, moves);
    }

    /** Knights are not generated: their rule is an empty stub. */
    method GetKnightMoves(r: int, c: int, moves: seq<Move>) returns (out: seq<Move>)
      requires Valid() && OnBoard(r, c)
      ensures out == moves
    {
      out := moves;
    }

    method GetBishopMoves(r: int, c: int, moves: seq<Move>) returns (out: seq<Move>)
      requires Valid() && OnBoard(r, c)
      ensures out == moves + BishopMoves(Squares, r, c, whiteToMove)
    {
      out := SlideAlong(r, c, BISHOP_DIRECTIONS, 7, moves);
    }

    method GetQueenMoves(r: int, c: int, moves: seq<Move>) returns (out: seq<Move>)
      requires Valid() && OnBoard(r, c)
      ensures out == moves + QueenMoves(Squares, r, c, whiteToMove)
    {
      ghost var rook, bishop := RookMoves(Squares, r, c, whiteToMove), BishopMoves(Squares, r, c, whiteToMove);
      out := GetRookMoves(r, c, moves);
      out := GetBishopMoves(r, c, out);
      AppendAssoc(moves, rook, bishop);
    }

    method GetKingMoves(r: int, c: int, moves: seq<Move>) returns (out: seq<Move>)
      requires Valid() && OnBoard(r, c)
      ensures out == moves + KingMoves(Squares, r, c, whiteToMove)
    {
      out := SlideAlong(r, c, KING_DIRECTIONS, 1, moves);
    }

    /**
     * Every move of every piece of the side to move, square by square in
     * row-major order, each piece dispatched on its kind.
     */
    method GetAllPossibleMoves() returns (moves: seq<Move>)
      requires Valid() && CanGenerate()
      ensures moves == AllMoves(Squares, whiteToMove)
    {
      ghost var b, w := Squares, whiteToMove;
      moves := [];
      for r := 0 to 8
        invariant moves == RowsMoves(b, r, w)
      {
        ghost var done := moves;
        for c := 0 to 8
          invariant moves == done + RowMoves(b, r, c, w)
        {
          ghost var row, piece := RowMoves(b, r, c, w), PieceMoves(b, r, c, w);
          moves := SquareMoves(r, c, moves);
          RowMovesStep(b, r, c, w);
          AppendAssoc(done, row, piece);
        }
        RowsMovesStep(b, r, w);
      }
    }

    /** One square of the scan: only a piece of the side to move generates anything. */
    method SquareMoves(r: int, c: int, moves: seq<Move>) returns (out: seq<Move>)
      requires Valid() && CanGenerate() && OnBoard(r, c)
      ensures out == moves + PieceMoves(Squares, r, c, whiteToMove)
    {
      var sq := board[r, c];
      if sq.Piece? && ((sq.colour == White && whiteToMove) || (sq.colour == Black && !whiteToMove)) {
        out := MovePiece(r, c, moves);
      } else {
        out := moves;
      }
    }

    /**
     * Hands the piece of the side to move on (r, c) to the generator for its
     * kind; knights have an empty generator.
     */
    method MovePiece(r: int, c: int, moves: seq<Move>) returns (out: seq<Move>)
      requires Valid() && CanGenerate() && OnBoard(r, c)
      requires Squares[r][c].Piece? && Squares[r][c].colour == SideColour(whiteToMove)
      ensures out == moves + PieceMoves(Squares, r, c, whiteToMove)
    {
      var sq := board[r, c];
      match sq.kind
      case Pawn =>
        assert Squares[FarRow(whiteToMove)][c] != sq;
        out := GetPawnMoves(r, c, moves);
      case Rook => out := GetRookMoves(r, c, moves);
      case Knight => out := GetKnightMoves(r, c, moves);
      case Bishop => out := GetBishopMoves(r, c, moves);
      case Queen => out := GetQueenMoves(r, c, moves);
      case King => out := GetKingMoves(r, c, moves);
    }

    /** The moves offered to the player: for now, all pseudo-legal moves, with no check filtering. */
    method GetValidMoves() returns (moves: seq<Move>)
      requires Valid() && CanGenerate()
      ensures moves == AllMoves(Squares, whiteToMove)
    {
      moves := GetAllPossibleMoves();
    }
  }

  lemma AppendAssoc<T>(a: seq<T>, b: seq<T>, c: seq<T>)
    ensures (a + b) + c == a + (b + c)
  {
  }

  /** Playing a move built from the current board and taking it back restores the whole state. */
  method MakeThenUndo(g: GameState, sr: int, sc: int, er: int, ec: int)
    requires g.Valid() && OnBoard(sr, sc) && OnBoard(er, ec)
    modifies g, g.board
    ensures g.Valid() && g.board == old(g.board)
    ensures g.Squares == old(g.Squares)
    ensures g.whiteToMove == old(g.whiteToMove) && g.moveLog == old(g.moveLog)
  {
    var move := g.BuildMove(sr, sc, er, ec);
    ghost var before := g.Squares;
    g.MakeMove(move);
    g.UndoMove();
    RevertApply(before, move);
  }
}
