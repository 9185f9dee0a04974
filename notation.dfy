/**
 * The rank/file tables of the move record and the simplified algebraic
 * notation built from them.
 */
module Notation {
  import opened Pieces
  import opened Moves

  const RANKS_TO_ROWS: map<char, int> :=
    map['1' := 7, '2' := 6, '3' := 5, '4' := 4, '5' := 3, '6' := 2, '7' := 1, '8' := 0]

  /** The ranks table reversed: each row mapped to the rank that names it. */
  const ROWS_TO_RANKS: map<int, char> :=
    map[7 := '1', 6 := '2', 5 := '3', 4 := '4', 3 := '5', 2 := '6', 1 := '7', 0 := '8']

  const FILES_TO_COLS: map<char, int> :=
    map['a' := 0, 'b' := 1, 'c' := 2, 'd' := 3, 'e' := 4, 'f' := 5, 'g' := 6, 'h' := 7]

  /** The files table reversed. */
  const COLS_TO_FILES: map<int, char> :=
    map[0 := 'a', 1 := 'b', 2 := 'c', 3 := 'd', 4 := 'e', 5 := 'f', 6 := 'g', 7 := 'h']

  /** The row and rank tables are mutually inverse bijections between 0..7 and '1'..'8'. */
  lemma RankTablesInverse()
    ensures forall r :: r in ROWS_TO_RANKS <==> 0 <= r < 8
    ensures forall k :: k in RANKS_TO_ROWS <==> '1' <= k <= '8'
    ensures forall r :: r in ROWS_TO_RANKS ==>
      ROWS_TO_RANKS[r] in RANKS_TO_ROWS && RANKS_TO_ROWS[ROWS_TO_RANKS[r]] == r
    ensures forall k :: k in RANKS_TO_ROWS ==>
      RANKS_TO_ROWS[k] in ROWS_TO_RANKS && ROWS_TO_RANKS[RANKS_TO_ROWS[k]] == k
  {
    assert ROWS_TO_RANKS.Keys == {0, 1, 2, 3, 4, 5, 6, 7};
    assert RANKS_TO_ROWS.Keys == {'1', '2', '3', '4', '5', '6', '7', '8'};
  }

  /** The column and file tables are mutually inverse bijections between 0..7 and 'a'..'h'. */
  lemma FileTablesInverse()
    ensures forall c :: c in COLS_TO_FILES <==> 0 <= c < 8
    ensures forall k :: k in FILES_TO_COLS <==> 'a' <= k <= 'h'
    ensures forall c :: c in COLS_TO_FILES ==>
      COLS_TO_FILES[c] in FILES_TO_COLS && FILES_TO_COLS[COLS_TO_FILES[c]] == c
    ensures forall k :: k in FILES_TO_COLS ==>
      FILES_TO_COLS[k] in COLS_TO_FILES && COLS_TO_FILES[FILES_TO_COLS[k]] == k
  {
    assert COLS_TO_FILES.Keys == {0, 1, 2, 3, 4, 5, 6, 7};
    assert FILES_TO_COLS.Keys == {'a', 'b', 'c', 'd', 'e', 'f', 'g', 'h'};
  }

  /** The file letter and rank digit of a square, as in "e4". */
  function RankFile(r: int, c: int): (s: string)
    requires OnBoard(r, c)
    ensures |s| == 2 && 'a' <= s[0] <= 'h' && '1' <= s[1] <= '8'
    ensures FILES_TO_COLS[s[0]] == c && RANKS_TO_ROWS[s[1]] == r
  {
    RankTablesInverse();
    FileTablesInverse();
    [COLS_TO_FILES[c], ROWS_TO_RANKS[r]]
  }

  /**
   * The notation of a move: kind letter (pawns have none) and destination,
   * with an 'x' before the destination when something was captured; a pawn
   * capture starts with the file the pawn came from.
   */
  function ChessNotation(m: Move): (n: string)
    requires OnBoard(m.endRow, m.endCol)
    requires m.pieceCaptured != Empty && Letter(m.pieceMoved) == 'p' ==> OnBoard(m.startRow, m.startCol)
    ensures 2 <= |n| <= 4 && n[|n| - 2..] == RankFile(m.endRow, m.endCol)
  {
    if m.pieceCaptured == Empty && Letter(m.pieceMoved) != 'p' then
      [Letter(m.pieceMoved)] + RankFile(m.endRow, m.endCol)
    else if m.pieceCaptured == Empty && Letter(m.pieceMoved) == 'p' then
      RankFile(m.endRow, m.endCol)
    else if m.pieceCaptured != Empty && Letter(m.pieceMoved) != 'p' then
      [Letter(m.pieceMoved)] + "x" + RankFile(m.endRow, m.endCol)
    else
      [RankFile(m.startRow, m.startCol)[0]] + "x" + RankFile(m.endRow, m.endCol)
  }

  /** The notation marks a capture, and only a capture, with an 'x'. */
  lemma NotationMarksCapture(m: Move)
    requires InRange(m)
    ensures 'x' in ChessNotation(m) <==> m.pieceCaptured != Empty
  {
    var n := ChessNotation(m);
    var dest := RankFile(m.endRow, m.endCol);
    assert 'x' !in dest by { assert dest == [dest[0], dest[1]]; }
    if m.pieceCaptured == Empty {
      assert Letter(m.pieceMoved) != 'x' by {
        if m.pieceMoved.Piece? { assert Letter(m.pieceMoved) == KindLetter(m.pieceMoved.kind); }
      }
      assert n == dest || n == [Letter(m.pieceMoved)] + dest;
    } else {
      assert n[|n| - 3] == 'x';
    }
  }

  /**
   * The shape of the notation: it always ends with the destination square;
   * a quiet pawn move is exactly that square, any other piece is prefixed
   * with its kind letter, and a pawn capture with the file it left.
   */
  lemma NotationShape(m: Move)
    requires InRange(m)
    ensures var n := ChessNotation(m);
      && 2 <= |n| <= 4
      && n[|n| - 2..] == RankFile(m.endRow, m.endCol)
      && (m.pieceMoved.Piece? && m.pieceMoved.kind == Pawn && m.pieceCaptured == Empty
          ==> n == RankFile(m.endRow, m.endCol))
      && (m.pieceMoved.Piece? && m.pieceMoved.kind != Pawn ==> n[0] == KindLetter(m.pieceMoved.kind))
      && (m.pieceMoved.Piece? && m.pieceMoved.kind == Pawn && m.pieceCaptured != Empty
          ==> n[0] == COLS_TO_FILES[m.startCol] && n[1] == 'x' && |n| == 4)
  {
    var n := ChessNotation(m);
    var dest := RankFile(m.endRow, m.endCol);
    if m.pieceMoved.Piece? {
      assert Letter(m.pieceMoved) == KindLetter(m.pieceMoved.kind);
      assert Letter(m.pieceMoved) == 'p' <==> m.pieceMoved.kind == Pawn;
    }
    assert n[|n| - 2..] == dest;
  }
}
