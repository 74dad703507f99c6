/** The optional value used for empty squares, absent kings and failed lookups. */
module Optional {
  datatype Option<+T> = None | Some(value: T)
}

/**
  The board snapshot the feature bank reads: 64 squares, each empty or holding
  one piece, plus the side to move and the four castling flags. Squares are
  numbered as in python-chess: a1 = 0, b1 = 1, ..., h8 = 63, so that
  file = square mod 8 and rank = square div 8 (rank 0 is White's back rank).
 */
module Chess {
  import opened Optional

  datatype Color = White | Black {
    /** python-chess's `not color`. */
    function Opponent(): (r: Color)
      ensures r != this
    {
      if this == White then Black else White
    }
  }

  datatype PieceType = Pawn | Knight | Bishop | Rook | Queen | King

  datatype Piece = Piece(kind: PieceType, color: Color)

  type Square = i: int | 0 <= i < 64

  /** The number of squares: counts over the board range over [0, Squares). */
  const Squares: nat := 64

  type Cells = s: seq<Option<Piece>> | |s| == 64 witness seq(64, _ => None)

  datatype Castling = Castling(whiteKingside: bool, whiteQueenside: bool,
                               blackKingside: bool, blackQueenside: bool)

  datatype Board = Board(cells: Cells, turn: Color, castling: Castling)

  function FileOf(sq: int): int { sq % 8 }

  function RankOf(sq: int): int { sq / 8 }

  /** python-chess's `square(file, rank)`: plain arithmetic, no range check. */
  function SquareAt(file: int, rank: int): int { rank * 8 + file }

  /** `piece_at`, made total: an index off the board holds nothing. */
  function At(b: Board, sq: int): Option<Piece>
  {
    if 0 <= sq < 64 then b.cells[sq] else None
  }

  /** True iff square `sq` holds a piece of kind `kind` and colour `c`. */
  predicate Holds(b: Board, sq: int, kind: PieceType, c: Color)
  {
    At(b, sq) == Some(Piece(kind, c))
  }

  /** True iff square `sq` holds a piece of colour `c` (`color_at(sq) == c`). */
  predicate Owns(b: Board, sq: int, c: Color)
  {
    At(b, sq).Some? && At(b, sq).value.color == c
  }

  /** The material value table used by the material count. */
  function PieceValue(kind: PieceType): nat
  {
    match kind
    case Pawn => 1
    case Knight => 3
    case Bishop => 3
    case Rook => 5
    case Queen => 9
    case King => 0
  }

  /** `has_castling_rights(color)`: the colour still holds a kingside or a queenside right. */
  predicate HasCastlingRights(b: Board, c: Color)
  {
    if c == White then b.castling.whiteKingside || b.castling.whiteQueenside
    else b.castling.blackKingside || b.castling.blackQueenside
  }

  /**
    `king(color)`: the highest-numbered square below `n` holding a king of
    colour `c` (python-chess takes the most significant bit of the king mask),
    or None when there is none.
   */
  function HighestKingBelow(b: Board, c: Color, n: nat): (r: Option<Square>)
    requires n <= 64
    ensures r.Some? ==> r.value < n && Holds(b, r.value, King, c)
    ensures r.Some? ==> forall sq :: r.value < sq < n ==> !Holds(b, sq, King, c)
    ensures r.None? <==> forall sq :: 0 <= sq < n ==> !Holds(b, sq, King, c)
  {
    if n == 0 then None
    else if Holds(b, n - 1, King, c) then Some(n - 1)
    else HighestKingBelow(b, c, n - 1)
  }

  /** The square of colour `c`'s king, None when the board has no such king. */
  function KingSquare(b: Board, c: Color): (r: Option<Square>)
    ensures r.Some? ==> Holds(b, r.value, King, c)
    ensures r.Some? ==> forall sq :: r.value < sq < 64 ==> !Holds(b, sq, King, c)
    ensures r.None? <==> forall sq :: 0 <= sq < 64 ==> !Holds(b, sq, King, c)
  {
    HighestKingBelow(b, c, 64)
  }

  function Abs(x: int): nat { if x < 0 then -x else x }

  /** `BB_KING_ATTACKS[from]` contains `to`: a different square at most one file and one rank away. */
  predicate KingStep(from: int, to: int)
  {
    && 0 <= from < 64
    && 0 <= to < 64
    && to != from
    && Abs(FileOf(to) - FileOf(from)) <= 1
    && Abs(RankOf(to) - RankOf(from)) <= 1
  }

  /** `BB_KNIGHT_ATTACKS[from]` contains `to`: one file and two ranks away, or two files and one rank. */
  predicate KnightStep(from: int, to: int)
  {
    && 0 <= from < 64
    && 0 <= to < 64
    && var df := Abs(FileOf(to) - FileOf(from));
       var dr := Abs(RankOf(to) - RankOf(from));
       (df == 1 && dr == 2) || (df == 2 && dr == 1)
  }
}

/**
  The answers python-chess gives about a board, which the feature bank only
  consumes: which squares each colour attacks (`is_attacked_by`), which
  squares `is_pinned` reports for each colour, and the list of legal moves.
  They are inputs here, not computed.
 */
module Oracles {
  import opened Optional
  import opened Chess

  datatype Move = Move(from: Square, to: Square, promotion: Option<PieceType>)

  datatype Oracle = Oracle(attackedByWhite: set<Square>, attackedByBlack: set<Square>,
                           pinnedWhite: set<Square>, pinnedBlack: set<Square>,
                           legalMoves: seq<Move>)

  /** `is_attacked_by(c, sq)`. */
  predicate AttackedBy(o: Oracle, c: Color, sq: int)
  {
    if c == White then sq in o.attackedByWhite else sq in o.attackedByBlack
  }

  /** `is_pinned(c, sq)`. */
  predicate Pinned(o: Oracle, c: Color, sq: int)
  {
    if c == White then sq in o.pinnedWhite else sq in o.pinnedBlack
  }

  /**
    The one property of legal-move generation the feature bank relies on:
    every legal move starts on a square holding a piece of the side to move.
   */
  predicate Sound(b: Board, o: Oracle)
  {
    forall i :: 0 <= i < |o.legalMoves| ==> Owns(b, o.legalMoves[i].from, b.turn)
  }
}
