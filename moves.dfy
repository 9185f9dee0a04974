/**
 * The engine's move record: start and end squares, the piece that stood on
 * the start square and the one (or "--") that stood on the end square when
 * the move was built, and the integer identifier that decides equality.
 */
module Moves {
  import opened Pieces

  datatype Move = Move(
    startRow: int, startCol: int,
    endRow: int, endCol: int,
    pieceMoved: Square, pieceCaptured: Square)

  /** Both squares of the move lie on the board. */
  predicate InRange(m: Move)
  {
    OnBoard(m.startRow, m.startCol) && OnBoard(m.endRow, m.endCol)
  }

  /** A move built from two squares and the board it is played on. */
  function MoveOf(sr: int, sc: int, er: int, ec: int, b: Board): (m: Move)
    requires IsBoard(b) && OnBoard(sr, sc) && OnBoard(er, ec)
    ensures InRange(m)
    ensures m.startRow == sr && m.startCol == sc && m.endRow == er && m.endCol == ec
    ensures m.pieceMoved == b[sr][sc] && m.pieceCaptured == b[er][ec]
  {
    Move(sr, sc, er, ec, b[sr][sc], b[er][ec])
  }

  /** The identifier the engine computes once per move. */
  function MoveId(m: Move): (id: int)
    ensures InRange(m) ==> 0 <= id <= 7777
  {
    m.startRow * 1000 + m.startCol * 100 + m.endRow * 10 + m.endCol
  }

  /**
   * Equality of moves: `other` is None when the object compared with is
   * not a move at all, which never equals a move.
   */
  function Equals(m: Move, other: Option<Move>): (eq: bool)
    ensures other.None? ==> !eq
    ensures other == Some(m) ==> eq
  {
    match other
    case None => false
    case Some(o) => MoveId(m) == MoveId(o)
  }

  predicate SameSquares(m: Move, o: Move)
  {
    m.startRow == o.startRow && m.startCol == o.startCol &&
    m.endRow == o.endRow && m.endCol == o.endCol
  }

  /** On the board the identifier is injective: it determines all four coordinates. */
  lemma MoveIdInjective(m: Move, o: Move)
    requires InRange(m) && InRange(o)
    ensures MoveId(m) == MoveId(o) <==> SameSquares(m, o)
  {
    var rest := m.startCol * 100 + m.endRow * 10 + m.endCol;
    var rest' := o.startCol * 100 + o.endRow * 10 + o.endCol;
    assert 0 <= rest < 1000 && 0 <= rest' < 1000;
    if MoveId(m) == MoveId(o) {
      assert m.startRow == o.startRow;
      assert m.startCol == o.startCol;
      assert m.endRow == o.endRow;
    }
  }

  /** Two moves are equal exactly when they join the same two squares,
    * whatever pieces they carry; a value that is not a move is never equal. */
  lemma EqualsExact(m: Move, other: Option<Move>)
    requires InRange(m) && (other.Some? ==> InRange(other.value))
    ensures Equals(m, other) <==> other.Some? && SameSquares(m, other.value)
  {
    if other.Some? {
      MoveIdInjective(m, other.value);
    }
  }
}
