# Chess engine core, modelled in Dafny

This project models the engine of a small Python chess program,
`Chess/ChessEngine.py`. It covers two classes.

- `GameState` holds an 8×8 board of two-character piece codes, whose turn it
  is, and a log of played moves. It plays and takes back moves and generates
  the pseudo-legal moves of the side to move: pawns, rooks, bishops, queens and
  kings. Knights generate nothing yet, and no check filtering is done.
- `Move` records a start and an end square and the pieces found on both. It
  carries an integer identifier that decides equality, and it prints a
  simplified algebraic notation through the rank/file tables.

Files:

- `pieces.dfy` (module `Pieces`): squares as a datatype
  (`Empty | Piece(colour, kind)`) and the engine's two-character codes
  (`"wp"`, `"bK"`, `"--"`) with a round trip between them. Also the board as a
  value and the starting position.
- `moves.dfy` (module `Moves`): the move record, its identifier and equality.
- `notation.dfy` (module `Notation`): the rank and file tables and the
  notation.
- `rules.dfy` (module `Rules`): move generation as functions of a board. The
  sliding rule, the king and the pawn rules are each characterised exactly,
  and so is the set of all moves of the side to move.
- `engine.dfy` (module `Engine`): the class `GameState`. Its board is an
  `array2<Square>` updated in place, with a ghost `Squares` value kept equal
  to it by `Valid()`. The generator methods are proved to compute exactly
  the functions of `Rules`, and making then undoing a move is proved to
  restore the state.

## Model

| member | source | states |
|---|---|---|
| Pieces.Code | Chess/ChessEngine.py:7-10 | every square has a two-character code, and the code is `"--"` exactly for the empty square |
| Pieces.DecodeCode | Chess/ChessEngine.py:7-10 | decoding the code of any square gives that square back |
| Pieces.CodeDecode | Chess/ChessEngine.py:7-10 | a string that decodes to a square is that square's code, so codes and squares are in one-to-one correspondence |
| Pieces.Letter | Chess/ChessEngine.py:9-10 | the second character of a code is the piece's kind letter, and `'-'` for an empty square |
| Pieces.InitialBoard | Chess/ChessEngine.py:11-20 | the starting position is an 8×8 board |
| Moves.MoveOf | Chess/ChessEngine.py:220-226 | a move built on a board keeps its four coordinates and records the pieces then on its start and end squares |
| Moves.MoveId | Chess/ChessEngine.py:227 | the identifier of a move on the board lies in 0..7777; that it identifies the squares is Moves.MoveIdInjective |
| Moves.MoveIdInjective | Chess/ChessEngine.py:227 | on the board, two moves have the same identifier if and only if they join the same two squares |
| Moves.Equals | Chess/ChessEngine.py:229-237 | a value that is not a move is never equal, and a move equals itself; the exact rule is Moves.EqualsExact |
| Moves.EqualsExact | Chess/ChessEngine.py:229-237 | a move equals another move exactly when both join the same squares, whatever pieces they record; it never equals a value that is not a move |
| Notation.RankTablesInverse | Chess/ChessEngine.py:214-216 | the rank table maps '1'..'8' onto rows 7..0, the reversed table has keys 0..7, and each undoes the other |
| Notation.FileTablesInverse | Chess/ChessEngine.py:217-219 | the file table maps 'a'..'h' onto columns 0..7, the reversed table has keys 0..7, and each undoes the other |
| Notation.RankFile | Chess/ChessEngine.py:252-253 | a square's name is a file letter then a rank digit, and the tables map them back to the square's column and row |
| Notation.ChessNotation | Chess/ChessEngine.py:239-250 | the notation has 2 to 4 characters and ends with the destination square's name; the four branches are characterised by Notation.NotationShape and Notation.NotationMarksCapture |
| Notation.NotationMarksCapture | Chess/ChessEngine.py:239-250 | the notation contains 'x' if and only if the move captured something |
| Notation.NotationShape | Chess/ChessEngine.py:239-250 | the notation has 2 to 4 characters and ends with the destination. A quiet pawn move is the destination alone, another piece starts with its kind letter, and a pawn capture is the start file, 'x', then the destination |
| Rules.RayExact | Chess/ChessEngine.py:149-162 | one direction's walk yields exactly the moves to the on-board squares reached through empty squares that are themselves empty or hold an enemy |
| Rules.RaysMember | Chess/ChessEngine.py:148-162 | a move is produced for a list of directions if and only if it is produced for one of them |
| Rules.RaysExact | Chess/ChessEngine.py:145-162 | sliding along unit directions reaches exactly the squares in line, within reach, in one of the directions, with a clear path and a landable end |
| Rules.Ray | Chess/ChessEngine.py:149-162 | no contract of its own: the walk along one direction, characterised by Rules.RayExact |
| Rules.Rays | Chess/ChessEngine.py:145-162 | no contract of its own: the walks along a list of directions in order, characterised by Rules.RaysMember and Rules.RaysExact |
| Rules.RookMovesExact | Chess/ChessEngine.py:131-162 | rook moves are exactly the squares on the same rank or file, with every square strictly between empty and the end square empty or enemy |
| Rules.BishopMovesExact | Chess/ChessEngine.py:167-185 | bishop moves are exactly the squares on the same diagonal, with every square strictly between empty and the end square empty or enemy |
| Rules.QueenMovesExact | Chess/ChessEngine.py:187-189 | queen moves are exactly the rook's and the bishop's |
| Rules.KingMovesExact | Chess/ChessEngine.py:191-209 | king moves are exactly the on-board squares one king step away that are empty or hold an enemy |
| Rules.PawnMovesExact | Chess/ChessEngine.py:97-127 | a pawn produces a move if and only if the move goes to one of its target squares: forward onto an empty square, two forward from the home row over an empty square, or diagonally forward onto an enemy piece |
| Rules.PawnRules | Chess/ChessEngine.py:97-127 | each pawn move as generated is one of those three kinds, and a diagonal one never ends on column 7 |
| Rules.PawnMoves | Chess/ChessEngine.py:97-127 | no contract of its own: the pawn rule with the `c+1 < 7` guard, characterised by Rules.PawnMovesExact and Rules.PawnRules |
| Rules.PawnMissesLastFileCapture | Chess/ChessEngine.py:108-112 | a white pawn at (6, 6) does not capture a black rook at (5, 7) under the engine's guard, but does under the edge guard |
| Rules.IntendedPawnCaptures | Chess/ChessEngine.py:102-112 | with the edge as guard, a pawn captures diagonally forward on either side exactly when an enemy piece stands there |
| Rules.InitialPawnsCanStep | Chess/ChessEngine.py:11-20 | in the starting position no white pawn stands on row 0, so the scan's precondition holds there |
| Rules.PieceMoves | Chess/ChessEngine.py:76-79 | no contract of its own: the dispatch of lines 21-26 on the piece's kind, characterised by Rules.PieceMovesShape |
| Rules.PieceMovesShape | Chess/ChessEngine.py:76-79 | every move a square generates starts there, is built from the board and ends on it, and is generated only for a non-knight piece of the side to move |
| Rules.RowMovesMember | Chess/ChessEngine.py:75-79 | the first n squares of a row generate exactly the moves of the pieces on them |
| Rules.RowsMovesMember | Chess/ChessEngine.py:74-79 | the first n rows generate exactly the moves of the pieces on them |
| Rules.AllMovesExact | Chess/ChessEngine.py:67-80 | all moves are exactly the moves of the pieces on the board. Each is on the board and built from it, moves a piece of the side to move, and never moves a knight |
| Engine.RevertApply | Chess/ChessEngine.py:38-52 | undoing a move built from a board, after playing it, gives that board back |
| Engine.Apply | Chess/ChessEngine.py:38-39 | the moved piece stands on the end square, the start square is empty unless it is the end square, and every other square is unchanged |
| Engine.Revert | Chess/ChessEngine.py:51-52 | the captured piece (or nothing) stands on the end square, the moved piece on the start square unless it is the end square, and every other square is unchanged |
| Engine.GameState.constructor | Chess/ChessEngine.py:6-28 | the new game holds the starting position, with white to move and an empty log |
| Engine.GameState.BuildMove | Chess/ChessEngine.py:220-226 | a move built from the live board is the move built from its current contents |
| Engine.GameState.MakeMove | Chess/ChessEngine.py:31-41 | the start square is emptied and the moved piece put on the end square, nothing else on the board changes, the move is appended to the log and the turn passes |
| Engine.GameState.UndoMove | Chess/ChessEngine.py:43-53 | with an empty log nothing changes. Otherwise the last move is taken back (moved piece to the start square, captured piece to the end square), it leaves the log and the turn passes back |
| Engine.MakeThenUndo | Chess/ChessEngine.py:31-53 | playing a move built from the current board and then undoing it restores the board, the turn and the log |
| Engine.GameState.GetPawnMoves | Chess/ChessEngine.py:82-129 | appends exactly the pawn moves of the side to move from (r, c) |
| Engine.GameState.GetPawnAdvances | Chess/ChessEngine.py:97-101 | appends the one- and two-square advances; black's block at lines 114-118 is the same with the direction reversed |
| Engine.GameState.GetPawnCaptures | Chess/ChessEngine.py:102-112 | appends the diagonal captures, the right-hand one only while c + 1 < 7; black's block at lines 119-127 is the same |
| Engine.GameState.WalkRay | Chess/ChessEngine.py:149-162 | one direction's loop appends exactly the ray's moves, stopping at the edge, at a friendly piece, or after taking an enemy |
| Engine.GameState.SlideAlong | Chess/ChessEngine.py:145-162 | the loop over the directions appends the rays in direction order |
| Engine.GameState.GetRookMoves | Chess/ChessEngine.py:131-162 | appends exactly the rook moves (characterised by Rules.RookMovesExact) |
| Engine.GameState.GetKnightMoves | Chess/ChessEngine.py:164-165 | appends nothing |
| Engine.GameState.GetBishopMoves | Chess/ChessEngine.py:167-185 | appends exactly the bishop moves |
| Engine.GameState.GetQueenMoves | Chess/ChessEngine.py:187-189 | appends the rook moves, then the bishop moves |
| Engine.GameState.GetKingMoves | Chess/ChessEngine.py:191-209 | appends exactly the king moves |
| Engine.GameState.GetAllPossibleMoves | Chess/ChessEngine.py:67-80 | the scan returns exactly all moves of the side to move, in row-major square order (characterised by Rules.AllMovesExact) |
| Engine.GameState.SquareMoves | Chess/ChessEngine.py:76-79 | one square of the scan appends that square's moves, and nothing unless it holds a piece of the side to move |
| Engine.GameState.MovePiece | Chess/ChessEngine.py:78-79 | hands a piece of the side to move to the generator for its kind |
| Engine.GameState.GetValidMoves | Chess/ChessEngine.py:55-65 | returns the same moves as the scan of all possible moves |

## Left out

- `Chess/ChessMain.py` (the pygame window, mouse handling and drawing) is not part of this model.
- Check filtering, castling, en passant, promotion and knight jumps are not part of the engine's code. `getValidMoves` returns every pseudo-legal move, and `getKnightMoves` is empty; the model does the same.
- Engine.GameState.GetAllPossibleMoves: it requires `CanGenerate()`, meaning no pawn of the side to move stands on the row it walks towards. The code has no promotion, so a pawn can reach that row. There, Python's `board[r-1]` with `r = 0` wraps round to row 7 for white and yields moves to row -1. For black, `board[r+1]` with `r = 7` raises an `IndexError`. Neither the wrap-around nor the exception is modelled. Engine.GameState.GetPawnMoves, Engine.GameState.MovePiece, Engine.GameState.SquareMoves and Engine.GameState.GetValidMoves carry the same precondition.
- Out-of-range coordinates: `makeMove` (Engine.GameState.MakeMove, through `InRange`), `getRankFile` (Notation.RankFile) and `getChessNotation` (Notation.ChessNotation) require squares on the board. The source behaves differently off the board. A negative coordinate indexes Python lists from the end. In `makeMove`, an end square at row or column 8 or more raises `IndexError` at line 39, after line 38 has already set the start square to `"--"`: the board is left half-updated, and the move is neither logged nor the turn passed. `getRankFile` raises `KeyError` at line 253 for any row or column outside 0..7. These error paths are not modelled.
- Aliasing of the shared move list: each generator receives the list and returns it extended (`out == moves + ...`), rather than appending to one list object in place.
- Generator structure:
  - The rook, bishop and king loops are the same loop in the source. Here it is written once, as `SlideAlong`/`WalkRay`, with the direction list and the reach (7, or 1 for the king) as arguments.
  - The `moveFunctions` dictionary is a `match` on the piece's kind (`MovePiece`).
  - The pawn method's forward and diagonal parts are two helper methods (`GetPawnAdvances` and `GetPawnCaptures`), called in the source's order.
- The reversed tables `rowsToRanks` and `colsToFiles` are written out as literal maps rather than computed by reversing the dictionaries. `RankTablesInverse` and `FileTablesInverse` prove that they are the reversals.
- Pieces are a datatype rather than strings. `Pieces.Code` and `Pieces.Decode` relate the two, so any string that is not one of the thirteen codes is outside the model.

## Findings

| source | as written | input that shows it | evidently intended | confidence | as-written member | corrected member |
|---|---|---|---|---|---|---|
| Chess/ChessEngine.py:108 | the right-hand pawn capture is guarded by `c+1 < 7` (also at line 124 for black) | a white pawn at row 6, column 6 (g2) with a black piece at row 5, column 7 (h3): the capture is not generated | `c+1 < 8` (or `c+1 <= 7`), the board's edge, so a pawn on the g-file can capture onto the h-file | not executed | Rules.PawnMissesLastFileCapture | Rules.IntendedPawnCaptures |

The engine model (`Engine.GameState.GetPawnCaptures`, `Rules.PawnMoves`)
keeps the guard as written, because that is the behaviour of the program.
`Rules.IntendedPawnMoves` is the same rule with the edge as guard.
`Rules.PawnMovesExact` is proved for both guards.
