/**
 * Pseudo-legal move generation as functions of a board: what each kind of
 * piece may reach from its square, and all the moves of the side to move.
 * The engine's generator methods are proved to produce exactly these
 * sequences (module Engine); the lemmas here say what the sequences contain.
 */
module Rules {
  import opened Pieces
  import opened Moves

  function SideColour(white: bool): Colour
  {
    if white then White else Black
  }

  function EnemyColour(white: bool): Colour
  {
    if white then Black else White
  }

  predicate HasColour(sq: Square, colour: Colour)
  {
    sq.Piece? && sq.colour == colour
  }

  /** A piece may end its move on an empty square or on an enemy piece. */
  predicate Landable(b: Board, er: int, ec: int, enemy: Colour)
    requires IsBoard(b) && OnBoard(er, ec)
  {
    b[er][ec] == Empty || HasColour(b[er][ec], enemy)
  }

  // ---------------------------------------------------------------------------
  // Rays: the sliding rule shared by rook, bishop, queen and king

  const ROOK_DIRECTIONS: seq<(int, int)> := [(-1, 0), (0, 1), (1, 0), (0, -1)]
  const BISHOP_DIRECTIONS: seq<(int, int)> := [(-1, -1), (1, 1), (-1, 1), (1, -1)]
  const KING_DIRECTIONS: seq<(int, int)> :=
    [(-1, 1), (-1, 0), (0, 1), (0, -1), (1, 1), (1, -1), (-1, -1), (1, 0)]

  /** The i-th square from x in direction d. */
  function Step(x: int, d: int, i: int): int
  {
    x + d * i
  }

  predicate Unit(dr: int, dc: int)
  {
    -1 <= dr <= 1 && -1 <= dc <= 1 && (dr != 0 || dc != 0)
  }

  predicate UnitDirections(dirs: seq<(int, int)>)
  {
    forall n :: 0 <= n < |dirs| ==> Unit(dirs[n].0, dirs[n].1)
  }

  /** Steps i .. k-1 along the ray from (r, c) are on the board and empty. */
  predicate ClearFrom(b: Board, r: int, c: int, dr: int, dc: int, i: int, k: int)
    requires IsBoard(b)
  {
    forall j :: i <= j < k ==>
      OnBoard(Step(r, dr, j), Step(c, dc, j)) && b[Step(r, dr, j)][Step(c, dc, j)] == Empty
  }

  /**
   * The moves along one ray, from step i up to step `reach`: every empty
   * square, then the first occupied square if it holds an enemy piece; the
   * walk stops at the first occupied square or at the edge of the board.
   */
  function Ray(b: Board, r: int, c: int, dr: int, dc: int, enemy: Colour, i: int, reach: int): seq<Move>
    requires IsBoard(b) && OnBoard(r, c)
    decreases reach - i
  {
    if i > reach then []
    else
      var er, ec := Step(r, dr, i), Step(c, dc, i);
      if !OnBoard(er, ec) then []
      else if b[er][ec] == Empty then [MoveOf(r, c, er, ec, b)] + Ray(b, r, c, dr, dc, enemy, i + 1, reach)
      else if HasColour(b[er][ec], enemy) then [MoveOf(r, c, er, ec, b)]
      else []
  }

  /** The rays of all the given directions, in order. */
  function Rays(b: Board, r: int, c: int, enemy: Colour, dirs: seq<(int, int)>, reach: int): seq<Move>
    requires IsBoard(b) && OnBoard(r, c)
    decreases |dirs|
  {
    if dirs == [] then []
    else
      var d := dirs[|dirs| - 1];
      Rays(b, r, c, enemy, dirs[..|dirs| - 1], reach) + Ray(b, r, c, d.0, d.1, enemy, 1, reach)
  }

  function RookMoves(b: Board, r: int, c: int, white: bool): seq<Move>
    requires IsBoard(b) && OnBoard(r, c)
  {
    Rays(b, r, c, EnemyColour(white), ROOK_DIRECTIONS, 7)
  }

  function BishopMoves(b: Board, r: int, c: int, white: bool): seq<Move>
    requires IsBoard(b) && OnBoard(r, c)
  {
    Rays(b, r, c, EnemyColour(white), BISHOP_DIRECTIONS, 7)
  }

  function QueenMoves(b: Board, r: int, c: int, white: bool): seq<Move>
    requires IsBoard(b) && OnBoard(r, c)
  {
    RookMoves(b, r, c, white) + BishopMoves(b, r, c, white)
  }

  function KingMoves(b: Board, r: int, c: int, white: bool): seq<Move>
    requires IsBoard(b) && OnBoard(r, c)
  {
    Rays(b, r, c, EnemyColour(white), KING_DIRECTIONS, 1)
  }

  // ---------------------------------------------------------------------------
  // Geometry of a move, independent of how the rays are walked

  function Sign(x: int): int
  {
    if x > 0 then 1 else if x < 0 then -1 else 0
  }

  function Abs(x: int): nat
  {
    if x < 0 then -x else x
  }

  /** The number of king steps between two squares. */
  function Dist(r: int, c: int, er: int, ec: int): nat
  {
    if Abs(er - r) < Abs(ec - c) then Abs(ec - c) else Abs(er - r)
  }

  /** Exactly one coordinate changes: a rook's line. */
  predicate Orthogonal(r: int, c: int, er: int, ec: int)
  {
    (er == r) != (ec == c)
  }

  /** Both coordinates change by the same amount: a bishop's line. */
  predicate Diagonal(r: int, c: int, er: int, ec: int)
  {
    er != r && Abs(er - r) == Abs(ec - c)
  }

  /**
   * (er, ec) is reached from (r, c) by sliding in a straight line: it is on
   * the board, every square strictly between is empty, and it is empty or
   * holds an enemy piece.
   */
  predicate Slides(b: Board, r: int, c: int, enemy: Colour, er: int, ec: int)
    requires IsBoard(b)
  {
    && OnBoard(er, ec)
    && ClearFrom(b, r, c, Sign(er - r), Sign(ec - c), 1, Dist(r, c, er, ec))
    && Landable(b, er, ec, enemy)
  }

  /** The end square lies on one of the eight lines through the start square. */
  predicate InLine(r: int, c: int, er: int, ec: int)
  {
    var k := Dist(r, c, er, ec);
    Step(r, Sign(er - r), k) == er && Step(c, Sign(ec - c), k) == ec
  }

  // ---------------------------------------------------------------------------
  // Lemmas about rays

  /** Step k of a ray reaches the square at step i, and the path before it is clear. */
  predicate Hit(b: Board, r: int, c: int, dr: int, dc: int, enemy: Colour, i: int, k: int)
    requires IsBoard(b)
  {
    && OnBoard(Step(r, dr, k), Step(c, dc, k))
    && ClearFrom(b, r, c, dr, dc, i, k)
    && Landable(b, Step(r, dr, k), Step(c, dc, k), enemy)
  }

  /** A ray holds exactly the moves to the squares it hits. */
  lemma {:induction false} RayExact(b: Board, r: int, c: int, dr: int, dc: int, enemy: Colour,
                                    i: int, reach: int, m: Move)
    requires IsBoard(b) && OnBoard(r, c)
    ensures m in Ray(b, r, c, dr, dc, enemy, i, reach) <==>
      exists k :: i <= k <= reach && Hit(b, r, c, dr, dc, enemy, i, k) &&
        m == MoveOf(r, c, Step(r, dr, k), Step(c, dc, k), b)
    decreases reach - i
  {
    if i <= reach {
      var er, ec := Step(r, dr, i), Step(c, dc, i);
      if !OnBoard(er, ec) {
        forall k | i <= k <= reach ensures !Hit(b, r, c, dr, dc, enemy, i, k) {
          if k > i { assert !OnBoard(Step(r, dr, i), Step(c, dc, i)); }
        }
      } else if b[er][ec] == Empty {
        RayExact(b, r, c, dr, dc, enemy, i + 1, reach, m);
        if m in Ray(b, r, c, dr, dc, enemy, i, reach) {
          if m == MoveOf(r, c, er, ec, b) {
            assert Hit(b, r, c, dr, dc, enemy, i, i);
          } else {
            var k :| i + 1 <= k <= reach && Hit(b, r, c, dr, dc, enemy, i + 1, k) &&
              m == MoveOf(r, c, Step(r, dr, k), Step(c, dc, k), b);
            assert Hit(b, r, c, dr, dc, enemy, i, k);
          }
        } else {
          forall k | i <= k <= reach && Hit(b, r, c, dr, dc, enemy, i, k)
            ensures m != MoveOf(r, c, Step(r, dr, k), Step(c, dc, k), b)
          {
            if k > i { assert Hit(b, r, c, dr, dc, enemy, i + 1, k); }
          }
        }
      } else {
        forall k | i < k <= reach ensures !Hit(b, r, c, dr, dc, enemy, i, k) {
          assert b[Step(r, dr, i)][Step(c, dc, i)] != Empty;
        }
        if HasColour(b[er][ec], enemy) {
          assert Hit(b, r, c, dr, dc, enemy, i, i);
        }
      }
    }
  }

  /** A move is in the rays of a list of directions iff it is in the ray of one of them. */
  lemma {:induction false} RaysMember(b: Board, r: int, c: int, enemy: Colour,
                                      dirs: seq<(int, int)>, reach: int, m: Move)
    requires IsBoard(b) && OnBoard(r, c)
    ensures m in Rays(b, r, c, enemy, dirs, reach) <==>
      exists n :: 0 <= n < |dirs| && m in Ray(b, r, c, dirs[n].0, dirs[n].1, enemy, 1, reach)
    decreases |dirs|
  {
    if dirs != [] {
      var init := dirs[..|dirs| - 1];
      RaysMember(b, r, c, enemy, init, reach, m);
      if m in Rays(b, r, c, enemy, init, reach) {
        var n :| 0 <= n < |init| && m in Ray(b, r, c, init[n].0, init[n].1, enemy, 1, reach);
        assert dirs[n] == init[n];
      }
      if exists n :: 0 <= n < |dirs| && m in Ray(b, r, c, dirs[n].0, dirs[n].1, enemy, 1, reach) {
        var n :| 0 <= n < |dirs| && m in Ray(b, r, c, dirs[n].0, dirs[n].1, enemy, 1, reach);
        if n < |init| {
          assert init[n] == dirs[n];
        }
      }
    }
  }

  /** Walking k >= 1 unit steps puts the end square k king steps away, in that direction. */
  lemma UnitStep(r: int, c: int, dr: int, dc: int, k: int)
    requires Unit(dr, dc) && k >= 1
    ensures Sign(Step(r, dr, k) - r) == dr && Sign(Step(c, dc, k) - c) == dc
    ensures Dist(r, c, Step(r, dr, k), Step(c, dc, k)) == k
  {
    assert Step(r, dr, k) - r == (if dr == 1 then k else if dr == -1 then -k else 0);
    assert Step(c, dc, k) - c == (if dc == 1 then k else if dc == -1 then -k else 0);
  }

  /** Sliding along unit directions reaches exactly the squares in line, within reach, with a clear path. */
  lemma RaysExact(b: Board, r: int, c: int, enemy: Colour, dirs: seq<(int, int)>, reach: int, m: Move)
    requires IsBoard(b) && OnBoard(r, c) && UnitDirections(dirs)
    ensures m in Rays(b, r, c, enemy, dirs, reach) <==>
      var er, ec := m.endRow, m.endCol;
      && (Sign(er - r), Sign(ec - c)) in dirs
      && 1 <= Dist(r, c, er, ec) <= reach
      && InLine(r, c, er, ec)
      && Slides(b, r, c, enemy, er, ec)
      && m == MoveOf(r, c, er, ec, b)
  {
    var er, ec := m.endRow, m.endCol;
    RaysMember(b, r, c, enemy, dirs, reach, m);
    if m in Rays(b, r, c, enemy, dirs, reach) {
      var n :| 0 <= n < |dirs| && m in Ray(b, r, c, dirs[n].0, dirs[n].1, enemy, 1, reach);
      var dr, dc := dirs[n].0, dirs[n].1;
      RayExact(b, r, c, dr, dc, enemy, 1, reach, m);
      var k :| 1 <= k <= reach && Hit(b, r, c, dr, dc, enemy, 1, k) &&
        m == MoveOf(r, c, Step(r, dr, k), Step(c, dc, k), b);
      UnitStep(r, c, dr, dc, k);
      assert (Sign(er - r), Sign(ec - c)) == dirs[n];
    }
    if && (Sign(er - r), Sign(ec - c)) in dirs
       && 1 <= Dist(r, c, er, ec) <= reach
       && InLine(r, c, er, ec)
       && Slides(b, r, c, enemy, er, ec)
       && m == MoveOf(r, c, er, ec, b)
    {
      var dr, dc, k := Sign(er - r), Sign(ec - c), Dist(r, c, er, ec);
      var n :| 0 <= n < |dirs| && dirs[n] == (dr, dc);
      assert Hit(b, r, c, dr, dc, enemy, 1, k);
      RayExact(b, r, c, dr, dc, enemy, 1, reach, m);
    }
  }

  /** The sign of a difference times its size gives the difference back. */
  lemma SignAbs(x: int)
    ensures Sign(x) * Abs(x) == x
  {
  }

  /**
   * Rook moves: exactly the squares along a rank or a file that are reached
   * through empty squares and are empty or hold an enemy piece.
   */
  lemma RookMovesExact(b: Board, r: int, c: int, white: bool, m: Move)
    requires IsBoard(b) && OnBoard(r, c)
    ensures m in RookMoves(b, r, c, white) <==>
      var er, ec := m.endRow, m.endCol;
      Orthogonal(r, c, er, ec) && Slides(b, r, c, EnemyColour(white), er, ec) && m == MoveOf(r, c, er, ec, b)
  {
    var er, ec := m.endRow, m.endCol;
    RaysExact(b, r, c, EnemyColour(white), ROOK_DIRECTIONS, 7, m);
    SignAbs(er - r);
    SignAbs(ec - c);
    if Orthogonal(r, c, er, ec) && OnBoard(er, ec) {
      assert (Sign(er - r), Sign(ec - c)) in ROOK_DIRECTIONS;
    }
  }

  /** Bishop moves: the same rule along the diagonals. */
  lemma BishopMovesExact(b: Board, r: int, c: int, white: bool, m: Move)
    requires IsBoard(b) && OnBoard(r, c)
    ensures m in BishopMoves(b, r, c, white) <==>
      var er, ec := m.endRow, m.endCol;
      Diagonal(r, c, er, ec) && Slides(b, r, c, EnemyColour(white), er, ec) && m == MoveOf(r, c, er, ec, b)
  {
    var er, ec := m.endRow, m.endCol;
    RaysExact(b, r, c, EnemyColour(white), BISHOP_DIRECTIONS, 7, m);
    SignAbs(er - r);
    SignAbs(ec - c);
    if Diagonal(r, c, er, ec) && OnBoard(er, ec) {
      assert (Sign(er - r), Sign(ec - c)) in BISHOP_DIRECTIONS;
    }
  }

  /** Queen moves: the rook's lines and the bishop's diagonals. */
  lemma QueenMovesExact(b: Board, r: int, c: int, white: bool, m: Move)
    requires IsBoard(b) && OnBoard(r, c)
    ensures m in QueenMoves(b, r, c, white) <==>
      var er, ec := m.endRow, m.endCol;
      (Orthogonal(r, c, er, ec) || Diagonal(r, c, er, ec)) &&
      Slides(b, r, c, EnemyColour(white), er, ec) && m == MoveOf(r, c, er, ec, b)
  {
    RookMovesExact(b, r, c, white, m);
    BishopMovesExact(b, r, c, white, m);
  }

  /**
   * King moves: exactly one step in any of the eight directions, onto a
   * square of the board that is empty or holds an enemy piece.
   */
  lemma KingMovesExact(b: Board, r: int, c: int, white: bool, m: Move)
    requires IsBoard(b) && OnBoard(r, c)
    ensures m in KingMoves(b, r, c, white) <==>
      var er, ec := m.endRow, m.endCol;
      && Dist(r, c, er, ec) == 1 && OnBoard(er, ec)
      && Landable(b, er, ec, EnemyColour(white)) && m == MoveOf(r, c, er, ec, b)
  {
    var er, ec := m.endRow, m.endCol;
    RaysExact(b, r, c, EnemyColour(white), KING_DIRECTIONS, 1, m);
    if Dist(r, c, er, ec) == 1 {
      assert (Sign(er - r), Sign(ec - c)) in KING_DIRECTIONS;
      assert InLine(r, c, er, ec);
    }
  }

  // ---------------------------------------------------------------------------
  // Pawns

  /**
   * Pawn moves for the side to move: one square forward onto an empty square,
   * two from the home row when both squares ahead are empty, and one square
   * diagonally forward onto an enemy piece.  The right-hand capture is only
   * tried when c + 1 < fileLimit; the engine uses 7 (see PawnMoves).
   */
  function PawnMovesWithin(b: Board, r: int, c: int, white: bool, fileLimit: int): seq<Move>
    requires IsBoard(b) && OnBoard(r, c) && fileLimit <= 8
    requires if white then r >= 1 else r <= 6
  {
    PawnAdvances(b, r, c, white) + PawnCaptures(b, r, c, white, fileLimit)
  }

  /** One square forward if it is empty, and then two from the home row if that square is empty too. */
  function PawnAdvances(b: Board, r: int, c: int, white: bool): seq<Move>
    requires IsBoard(b) && OnBoard(r, c)
    requires if white then r >= 1 else r <= 6
  {
    var f := if white then -1 else 1;
    var home := if white then 6 else 1;
    if b[r + f][c] == Empty then
      [MoveOf(r, c, r + f, c, b)] +
      (if r == home && b[r + 2 * f][c] == Empty then [MoveOf(r, c, r + 2 * f, c, b)] else [])
    else []
  }

  /** Diagonal captures onto enemy pieces, left then right; the right one only when c + 1 < fileLimit. */
  function PawnCaptures(b: Board, r: int, c: int, white: bool, fileLimit: int): seq<Move>
    requires IsBoard(b) && OnBoard(r, c) && fileLimit <= 8
    requires if white then r >= 1 else r <= 6
  {
    var f := if white then -1 else 1;
    var enemy := EnemyColour(white);
    (if c - 1 >= 0 && HasColour(b[r + f][c - 1], enemy) then [MoveOf(r, c, r + f, c - 1, b)] else [])
    + (if c + 1 < fileLimit && HasColour(b[r + f][c + 1], enemy) then [MoveOf(r, c, r + f, c + 1, b)] else [])
  }

  /** The pawn moves as the engine generates them. */
  function PawnMoves(b: Board, r: int, c: int, white: bool): seq<Move>
    requires IsBoard(b) && OnBoard(r, c)
    requires if white then r >= 1 else r <= 6
  {
    PawnMovesWithin(b, r, c, white, 7)
  }

  /** The pawn moves with the right-hand capture guarded by the board's edge. */
  function IntendedPawnMoves(b: Board, r: int, c: int, white: bool): seq<Move>
    requires IsBoard(b) && OnBoard(r, c)
    requires if white then r >= 1 else r <= 6
  {
    PawnMovesWithin(b, r, c, white, 8)
  }

  /** The squares a pawn may move to, by rule. */
  predicate PawnTarget(b: Board, r: int, c: int, white: bool, fileLimit: int, er: int, ec: int)
    requires IsBoard(b) && OnBoard(r, c) && OnBoard(er, ec)
    requires if white then r >= 1 else r <= 6
  {
    var f := if white then -1 else 1;
    var home := if white then 6 else 1;
    || (ec == c && er == r + f && b[er][ec] == Empty)
    || (ec == c && er == r + 2 * f && r == home && b[r + f][c] == Empty && b[er][ec] == Empty)
    || (er == r + f && (ec == c - 1 || (ec == c + 1 && ec < fileLimit)) && HasColour(b[er][ec], EnemyColour(white)))
  }

  /** A pawn generates exactly the moves to its target squares. */
  lemma PawnMovesExact(b: Board, r: int, c: int, white: bool, fileLimit: int, m: Move)
    requires IsBoard(b) && OnBoard(r, c) && fileLimit <= 8
    requires if white then r >= 1 else r <= 6
    ensures m in PawnMovesWithin(b, r, c, white, fileLimit) <==>
      var er, ec := m.endRow, m.endCol;
      OnBoard(er, ec) && PawnTarget(b, r, c, white, fileLimit, er, ec) && m == MoveOf(r, c, er, ec, b)
  {
  }

  /**
   * The pawn's single step needs the square ahead empty, the double step
   * needs the home row and both squares ahead empty, and a diagonal move
   * needs an enemy piece on its target, which is never on the last file.
   */
  lemma PawnRules(b: Board, r: int, c: int, white: bool, m: Move)
    requires IsBoard(b) && OnBoard(r, c)
    requires if white then r >= 1 else r <= 6
    requires m in PawnMoves(b, r, c, white)
    ensures var f := if white then -1 else 1;
      && m == MoveOf(r, c, m.endRow, m.endCol, b)
      && (m.endRow == r + f && m.endCol == c ==> b[r + f][c] == Empty)
      && (m.endRow == r + 2 * f ==>
            m.endCol == c && r == (if white then 6 else 1) && b[r + f][c] == Empty && b[r + 2 * f][c] == Empty)
      && (m.endCol != c ==>
            m.endRow == r + f && Abs(m.endCol - c) == 1 && m.endCol != 7 &&
            HasColour(b[m.endRow][m.endCol], EnemyColour(white)))
  {
    PawnMovesExact(b, r, c, white, 7, m);
  }

  /**
   * The engine's pawn never captures onto the last file (column 7, the h-file):
   * a white pawn at (6, 6) facing a black rook at (5, 7) cannot take it,
   * although the mirrored capture from (6, 1) onto (5, 0) is generated.
   */
  lemma PawnMissesLastFileCapture()
    ensures var b := InitialBoard()[5 := InitialBoard()[5][7 := Piece(Black, Rook)]];
      && IsBoard(b)
      && MoveOf(6, 6, 5, 7, b) !in PawnMoves(b, 6, 6, true)
      && MoveOf(6, 6, 5, 7, b) in IntendedPawnMoves(b, 6, 6, true)
  {
    var b := InitialBoard()[5 := InitialBoard()[5][7 := Piece(Black, Rook)]];
    PawnMovesExact(b, 6, 6, true, 7, MoveOf(6, 6, 5, 7, b));
    PawnMovesExact(b, 6, 6, true, 8, MoveOf(6, 6, 5, 7, b));
  }

  /** With the edge as guard, a pawn captures diagonally forward on either side exactly when an enemy piece is there. */
  lemma IntendedPawnCaptures(b: Board, r: int, c: int, white: bool, ec: int)
    requires IsBoard(b) && OnBoard(r, c)
    requires if white then r >= 1 else r <= 6
    requires OnBoard(r, ec) && Abs(ec - c) == 1
    ensures var er := if white then r - 1 else r + 1;
      MoveOf(r, c, er, ec, b) in IntendedPawnMoves(b, r, c, white) <==> HasColour(b[er][ec], EnemyColour(white))
  {
    var er := if white then r - 1 else r + 1;
    PawnMovesExact(b, r, c, white, 8, MoveOf(r, c, er, ec, b));
  }

  // ---------------------------------------------------------------------------
  // All moves of the side to move

  /**
   * The pawn rule looks one row ahead without checking the edge, so a pawn
   * of the side to move must not stand on the far row.
   */
  predicate PawnsCanStep(b: Board, white: bool)
    requires IsBoard(b)
  {
    forall c :: 0 <= c < 8 ==> b[FarRow(white)][c] != Piece(SideColour(white), Pawn)
  }

  /** The row a pawn of the side to move walks towards. */
  function FarRow(white: bool): int
  {
    if white then 0 else 7
  }

  /** In the starting position white's pawns stand on row 6, so moves can be generated for white. */
  lemma InitialPawnsCanStep()
    ensures PawnsCanStep(InitialBoard(), true)
  {
    var b := InitialBoard();
    assert forall c :: 0 <= c < 8 ==> b[0][c] != Piece(White, Pawn);
  }

  /** The moves of the piece on (r, c), if it belongs to the side to move; knights have none. */
  function PieceMoves(b: Board, r: int, c: int, white: bool): seq<Move>
    requires IsBoard(b) && OnBoard(r, c) && PawnsCanStep(b, white)
  {
    match b[r][c]
    case Empty => []
    case Piece(colour, kind) =>
      if colour != SideColour(white) then []
      else
        match kind
        case Pawn =>
          assert b[FarRow(white)][c] != b[r][c];
          PawnMoves(b, r, c, white)
        case Rook => RookMoves(b, r, c, white)
        case Knight => []
        case Bishop => BishopMoves(b, r, c, white)
        case Queen => QueenMoves(b, r, c, white)
        case King => KingMoves(b, r, c, white)
  }

  /** The moves of the squares (r, 0) .. (r, n - 1). */
  function RowMoves(b: Board, r: int, n: int, white: bool): seq<Move>
    requires IsBoard(b) && 0 <= r < 8 && n <= 8 && PawnsCanStep(b, white)
    decreases n
  {
    if n <= 0 then [] else RowMoves(b, r, n - 1, white) + PieceMoves(b, r, n - 1, white)
  }

  /** The moves of rows 0 .. n - 1, row by row. */
  function RowsMoves(b: Board, n: int, white: bool): seq<Move>
    requires IsBoard(b) && n <= 8 && PawnsCanStep(b, white)
    decreases n
  {
    if n <= 0 then [] else RowsMoves(b, n - 1, white) + RowMoves(b, n - 1, 8, white)
  }

  /** One more square of a row appends that square's moves. */
  lemma RowMovesStep(b: Board, r: int, c: int, white: bool)
    requires IsBoard(b) && OnBoard(r, c) && PawnsCanStep(b, white)
    ensures RowMoves(b, r, c + 1, white) == RowMoves(b, r, c, white) + PieceMoves(b, r, c, white)
  {
  }

  /** One more row appends that row's moves. */
  lemma RowsMovesStep(b: Board, r: int, white: bool)
    requires IsBoard(b) && 0 <= r < 8 && PawnsCanStep(b, white)
    ensures RowsMoves(b, r + 1, white) == RowsMoves(b, r, white) + RowMoves(b, r, 8, white)
  {
  }

  /** All pseudo-legal moves of the side to move, square by square in row-major order. */
  function AllMoves(b: Board, white: bool): seq<Move>
    requires IsBoard(b) && PawnsCanStep(b, white)
  {
    RowsMoves(b, 8, white)
  }

  /** Every move a piece generates starts on its square and is built from the board. */
  lemma PieceMovesShape(b: Board, r: int, c: int, white: bool, m: Move)
    requires IsBoard(b) && OnBoard(r, c) && PawnsCanStep(b, white)
    requires m in PieceMoves(b, r, c, white)
    ensures OnBoard(m.endRow, m.endCol) && m == MoveOf(r, c, m.endRow, m.endCol, b)
    ensures b[r][c].Piece? && b[r][c].colour == SideColour(white) && b[r][c].kind != Knight
  {
    match b[r][c].kind
    case Pawn => PawnMovesExact(b, r, c, white, 7, m);
    case Rook => RookMovesExact(b, r, c, white, m);
    case Knight =>
    case Bishop => BishopMovesExact(b, r, c, white, m);
    case Queen => QueenMovesExact(b, r, c, white, m);
    case King => KingMovesExact(b, r, c, white, m);
  }

  lemma {:induction false} RowMovesMember(b: Board, r: int, n: int, white: bool, m: Move)
    requires IsBoard(b) && 0 <= r < 8 && 0 <= n <= 8 && PawnsCanStep(b, white)
    ensures m in RowMoves(b, r, n, white) <==>
      m.startRow == r && 0 <= m.startCol < n && m in PieceMoves(b, r, m.startCol, white)
    decreases n
  {
    if n > 0 {
      RowMovesMember(b, r, n - 1, white, m);
      if m in PieceMoves(b, r, n - 1, white) {
        PieceMovesShape(b, r, n - 1, white, m);
      }
    }
  }

  lemma {:induction false} RowsMovesMember(b: Board, n: int, white: bool, m: Move)
    requires IsBoard(b) && 0 <= n <= 8 && PawnsCanStep(b, white)
    ensures m in RowsMoves(b, n, white) <==>
      0 <= m.startRow < n && 0 <= m.startCol < 8 && m in PieceMoves(b, m.startRow, m.startCol, white)
    decreases n
  {
    if n > 0 {
      RowsMovesMember(b, n - 1, white, m);
      RowMovesMember(b, n - 1, 8, white, m);
    }
  }

  /**
   * All moves of the side to move are exactly the moves of its pieces, each
   * starting on the piece's square: only pieces of the side to move, never a
   * knight, every move on the board and built from the current board.
   */
  lemma AllMovesExact(b: Board, white: bool, m: Move)
    requires IsBoard(b) && PawnsCanStep(b, white)
    ensures m in AllMoves(b, white) <==>
      OnBoard(m.startRow, m.startCol) && m in PieceMoves(b, m.startRow, m.startCol, white)
    ensures m in AllMoves(b, white) ==>
      && InRange(m)
      && m == MoveOf(m.startRow, m.startCol, m.endRow, m.endCol, b)
      && HasColour(m.pieceMoved, SideColour(white))
      && m.pieceMoved.kind != Knight
  {
    RowsMovesMember(b, 8, white, m);
    if m in AllMoves(b, white) {
      PieceMovesShape(b, m.startRow, m.startCol, white, m);
    }
  }
}
