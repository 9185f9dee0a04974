/**
 * Pieces and boards of the chess engine.
 *
 * The engine stores every square of its 8x8 board as a two-character code:
 * a colour letter ('w' or 'b') followed by a kind letter ('K', 'Q', 'R',
 * 'B', 'N' or 'p'), or "--" for an empty square.  Here a square is a
 * datatype; `Code` and `Decode` connect it to the two-character form.
 */
module Pieces {

  datatype Option<T> = None | Some(value: T)

  datatype Colour = White | Black

  datatype Kind = Pawn | Rook | Knight | Bishop | Queen | King

  datatype Square = Empty | Piece(colour: Colour, kind: Kind)

  /** The board: 8 rows of 8 squares, row 0 being black's back rank. */
  type Board = seq<seq<Square>>

  predicate IsBoard(b: Board)
  {
    |b| == 8 && forall r :: 0 <= r < 8 ==> |b[r]| == 8
  }

  predicate OnBoard(r: int, c: int)
  {
    0 <= r < 8 && 0 <= c < 8
  }

  function ColourLetter(colour: Colour): char
  {
    match colour
    case White => 'w'
    case Black => 'b'
  }

  function KindLetter(kind: Kind): char
  {
    match kind
    case Pawn => 'p'
    case Rook => 'R'
    case Knight => 'N'
    case Bishop => 'B'
    case Queen => 'Q'
    case King => 'K'
  }

  /** The two-character code the engine stores for a square. */
  function Code(sq: Square): (s: string)
    ensures |s| == 2
    ensures sq == Empty <==> s == "--"
  {
    match sq
    case Empty => "--"
    case Piece(colour, kind) => [ColourLetter(colour), KindLetter(kind)]
  }

  /** Reads a two-character code back; anything else is not a square. */
  function Decode(s: string): Option<Square>
  {
    if s == "--" then Some(Empty)
    else if |s| != 2 then None
    else
      var colour :=
        if s[0] == 'w' then Some(White) else if s[0] == 'b' then Some(Black) else None;
      var kind :=
        match s[1]
        case 'p' => Some(Pawn)
        case 'R' => Some(Rook)
        case 'N' => Some(Knight)
        case 'B' => Some(Bishop)
        case 'Q' => Some(Queen)
        case 'K' => Some(King)
        case _ => None;
      if colour.Some? && kind.Some? then Some(Piece(colour.value, kind.value)) else None
  }

  /** Every square survives a round trip through its code. */
  lemma DecodeCode(sq: Square)
    ensures Decode(Code(sq)) == Some(sq)
  {
    match sq
    case Empty =>
    case Piece(colour, kind) =>
      assert Code(sq) != "--" by { assert Code(sq)[0] != '-'; }
  }

  /** Decoding is exact: a string decodes only from the code of its square. */
  lemma CodeDecode(s: string, sq: Square)
    requires Decode(s) == Some(sq)
    ensures Code(sq) == s
  {
    if s != "--" {
      assert |s| == 2;
      assert Code(sq) == [s[0], s[1]];
    }
  }

  /**
   * The engine's `board[r][c][1]`: the kind letter of a piece, and '-'
   * (the second character of "--") for an empty square.
   */
  function Letter(sq: Square): (ch: char)
    ensures sq.Piece? ==> ch == KindLetter(sq.kind)
    ensures sq == Empty ==> ch == '-'
  {
    Code(sq)[1]
  }

  /** The starting position, row 0 being black's back rank. */
  function InitialBoard(): (b: Board)
    ensures IsBoard(b)
  {
    var back := [Rook, Knight, Bishop, Queen, King, Bishop, Knight, Rook];
    var empty := seq(8, _ => Empty);
    [ seq(8, c requires 0 <= c < 8 => Piece(Black, back[c])),
      seq(8, _ => Piece(Black, Pawn)),
      empty, empty, empty, empty,
      seq(8, _ => Piece(White, Pawn)),
      seq(8, c requires 0 <= c < 8 => Piece(White, back[c])) ]
  }
}
