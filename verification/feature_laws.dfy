/**
  Relations between features: two features that split the same squares, one
  feature that filters what another counts, and how a board change moves a
  count.
 */
module FeatureLaws {
  import opened Optional
  import opened Chess
  import opened Oracles
  import opened Counting
  import opened Features

  /**
    A centre square counts toward centre control (attacked by `c`) or toward
    weak squares (not attacked by `c` and empty), never both, so together
    they cover at most the four centre squares.
   */
  lemma CenterSplit(b: Board, o: Oracle, c: Color)
    ensures CenterControl(o, c) + WeakSquares(b, o, c) <= 4
  {
    CountDisjoint(4, CenterAttacked(o, c), CenterWeak(b, o, c), i => 0 <= i < 4);
  }

  /**
    No piece is both hanging (attacked by the opponent and not by its own
    side) and coordinated (attacked by its own side), so the two counts add
    up to at most the pieces of that colour.
   */
  lemma HangingCoordinationDisjoint(b: Board, o: Oracle, c: Color)
    ensures HangingPieces(b, o, c) + PieceCoordination(b, o, c) <= ColorCount(b, c)
  {
    CountDisjoint(Squares, HangingSquares(b, o, c), DefendedSquares(b, o, c), PiecesOfColor(b, c));
  }

  /**
    Piece activity splits the legal-move list by the colour on the origin
    square: the two colours' activities add up to at most the mobility, and
    to exactly the mobility when every move starts on a piece of the side to
    move.
   */
  lemma PieceActivityPartition(b: Board, o: Oracle)
    ensures PieceActivity(b, o, White) + PieceActivity(b, o, Black) <= Mobility(o)
    ensures Sound(b, o) ==> PieceActivity(b, o, White) + PieceActivity(b, o, Black) == Mobility(o)
  {
    var n := |o.legalMoves|;
    CountDisjoint(n, MovesOf(b, o, White), MovesOf(b, o, Black), i => true);
  }

  /**
    Mobility is the move count of the side to move: when every legal move
    starts on one of its pieces, its piece activity is the whole mobility and
    the other side's is zero.
   */
  lemma MobilityOfSideToMove(b: Board, o: Oracle)
    requires Sound(b, o)
    ensures Mobility(o) == PieceActivity(b, o, b.turn)
    ensures PieceActivity(b, o, b.turn.Opponent()) == 0
  {
  }

  /**
    The attacked/defended balance counts every occupied square, whichever
    colour holds it, so one colour's "attacked" is the other colour's
    "defended"; and a colour's coordinated pieces are among its "defended"
    squares, its hanging pieces among its "attacked" squares.
   */
  lemma AttackedMirrorsDefended(b: Board, o: Oracle, c: Color)
    ensures AttackedVsDefended(b, o, c).attacked == AttackedVsDefended(b, o, c.Opponent()).defended
    ensures PieceCoordination(b, o, c) <= AttackedVsDefended(b, o, c).defended
    ensures HangingPieces(b, o, c) <= AttackedVsDefended(b, o, c).attacked
  {
    assert c.Opponent().Opponent() == c;
    CountMono(Squares, DefendedSquares(b, o, c), OccupiedAttackedBy(b, o, c));
    CountMono(Squares, HangingSquares(b, o, c), OccupiedAttackedBy(b, o, c.Opponent()));
  }

  /** A square on file f (0 <= f < 8) is on file f. */
  lemma FileOfSquareAt(f: int, r: int)
    requires 0 <= f < 8
    ensures FileOf(SquareAt(f, r)) == f
  {
  }

  /** A pawn of colour `c` makes its own file a pawn file. */
  lemma PawnMakesPawnFile(b: Board, c: Color, sq: Square)
    requires Holds(b, sq, Pawn, c)
    ensures PawnsOnFile(b, c, FileOf(sq)) > 0
  {
    assert sq == SquareAt(FileOf(sq), RankOf(sq));
    assert FilePawns(b, c, FileOf(sq))(RankOf(sq));
    CountZero(8, FilePawns(b, c, FileOf(sq)));
  }

  /** A file holding none of colour `c`'s pawns is not a pawn file. */
  lemma NoPawnFile(b: Board, c: Color, g: int)
    requires 0 <= g < 8
    requires forall sq :: 0 <= sq < 64 && Holds(b, sq, Pawn, c) ==> FileOf(sq) != g
    ensures PawnsOnFile(b, c, g) == 0
  {
    forall r | 0 <= r < 8 ensures !FilePawns(b, c, g)(r) {
      FileOfSquareAt(g, r);
    }
    CountZero(8, FilePawns(b, c, g));
  }

  /**
    When every pawn of colour `c` stands on one file, that file is the only
    pawn file, it has no neighbour, and the isolated count is exactly 1.
   */
  lemma SingleFileIsolated(b: Board, c: Color, f: int)
    requires 0 <= f < 8
    requires PieceCount(b, Pawn, c) > 0
    requires forall sq :: 0 <= sq < 64 && Holds(b, sq, Pawn, c) ==> FileOf(sq) == f
    ensures PawnStructure(b, c).isolated == 1
  {
    CountZero(Squares, PiecesOf(b, Pawn, c));
    var sq :| 0 <= sq < 64 && PiecesOf(b, Pawn, c)(sq);
    PawnMakesPawnFile(b, c, sq);
    forall g | 0 <= g < 8 && g != f ensures PawnsOnFile(b, c, g) == 0 {
      NoPawnFile(b, c, g);
    }
    forall g | 0 <= g < 8 ensures IsolatedFiles(b, c)(g) <==> g == f {
    }
    CountSingle(8, IsolatedFiles(b, c), f);
  }

  /** The board with a pawn of colour `pc` added on the empty square `t`. */
  function AddPawn(b: Board, t: Square, pc: Color): Board
  {
    b.(cells := b.cells[t := Some(Piece(Pawn, pc))])
  }

  /**
    A rook on a pawnless file counts toward both rook activity and open-file
    control; putting a pawn of either colour on an empty square of that file
    removes it from both counts.
   */
  lemma PawnClosesFile(b: Board, c: Color, sq: Square, t: Square, pc: Color)
    requires Holds(b, sq, Rook, c) && !FileHasPawn(b, FileOf(sq))
    requires FileOf(t) == FileOf(sq) && b.cells[t].None?
    ensures RookActivity(AddPawn(b, t, pc), c) < RookActivity(b, c)
    ensures OpenFileControl(AddPawn(b, t, pc), c) < OpenFileControl(b, c)
  {
    var b' := AddPawn(b, t, pc);
    AddPawnFillsFile(b, t, pc);
    forall f | FileHasPawn(b, f) ensures FileHasPawn(b', f) {
      AddPawnKeepsFile(b, t, pc, f);
    }
    CountStrict(Squares, RooksOnOpenFiles(b', c), RooksOnOpenFiles(b, c), sq);
    CountStrict(Squares, HeavyOnOpenFiles(b', c), HeavyOnOpenFiles(b, c), sq);
  }

  /** The file of the added pawn holds a pawn. */
  lemma AddPawnFillsFile(b: Board, t: Square, pc: Color)
    requires b.cells[t].None?
    ensures FileHasPawn(AddPawn(b, t, pc), FileOf(t))
  {
    assert t == SquareAt(FileOf(t), RankOf(t));
  }

  /** Adding a pawn on an empty square keeps every pawn already on the board. */
  lemma AddPawnKeepsFile(b: Board, t: Square, pc: Color, f: int)
    requires b.cells[t].None? && FileHasPawn(b, f)
    ensures FileHasPawn(AddPawn(b, t, pc), f)
  {
    var r :| 0 <= r < 8 && At(b, SquareAt(f, r)).Some? && At(b, SquareAt(f, r)).value.kind == Pawn;
    assert At(AddPawn(b, t, pc), SquareAt(f, r)) == At(b, SquareAt(f, r));
  }

  /** A knight or bishop of colour `c` still on its own back rank. */
  function UndevelopedMinors(b: Board, c: Color): int -> bool
  {
    sq => MinorPieces(b, c)(sq) && RankOf(sq) == HomeRank(c)
  }

  /**
    Every knight and bishop of colour `c` is either developed or still on its
    back rank: development is what remains of the minor pieces after the
    back-rank ones.
   */
  lemma DevelopmentComplement(b: Board, c: Color)
    ensures Development(b, c) + Count(Squares, UndevelopedMinors(b, c))
         == PieceCount(b, Knight, c) + PieceCount(b, Bishop, c)
  {
    forall sq | 0 <= sq < 64
      ensures MinorPieces(b, c)(sq) <==> DevelopedMinors(b, c)(sq) || UndevelopedMinors(b, c)(sq)
      ensures !(DevelopedMinors(b, c)(sq) && UndevelopedMinors(b, c)(sq))
    {
      assert 0 <= RankOf(sq) < 8;
    }
    CountSplit(Squares, MinorPieces(b, c), DevelopedMinors(b, c), UndevelopedMinors(b, c));
    CountSplit(Squares, MinorPieces(b, c), PiecesOf(b, Knight, c), PiecesOf(b, Bishop, c));
  }

  /** Space advantage reaches its maximum of 32 exactly when colour `c` attacks the whole opponent half. */
  lemma SpaceFull(o: Oracle, c: Color)
    ensures SpaceAdvantage(o, c) == 32
        <==> forall sq :: 0 <= sq < 64 && OpponentHalf(c, sq) ==> AttackedBy(o, c, sq)
  {
    HalfSize(c);
    if forall sq :: 0 <= sq < 64 && OpponentHalf(c, sq) ==> AttackedBy(o, c, sq) {
      CountExt(Squares, SpaceSquares(o, c), Half(c));
    } else {
      var t :| 0 <= t < 64 && OpponentHalf(c, t) && !AttackedBy(o, c, t);
      CountStrict(Squares, SpaceSquares(o, c), Half(c), t);
    }
  }

  /**
    The converse of ConnectedRooks' contract: exactly two rooks of colour
    `c`, both on squares colour `c` attacks, score 1.
   */
  lemma ConnectedRooksExact(b: Board, o: Oracle, c: Color, s1: int, s2: int)
    requires RooksExactlyOn(b, c, s1, s2)
    requires AttackedBy(o, c, s1) && AttackedBy(o, c, s2)
    ensures ConnectedRooks(b, o, c) == 1
  {
    CountSplit(Squares, PiecesOf(b, Rook, c), i => i == s1, i => i == s2);
    CountSingle(Squares, i => i == s1, s1);
    CountSingle(Squares, i => i == s2, s2);
    assert PieceCount(b, Rook, c) == 2;
  }

  // ---------------------------------------------------------------------------
  // when a count is zero
  // ---------------------------------------------------------------------------

  /** No piece hangs exactly when every piece the opponent attacks is also attacked by its own side. */
  lemma NoHangingPieces(b: Board, o: Oracle, c: Color)
    ensures HangingPieces(b, o, c) == 0
        <==> forall sq :: 0 <= sq < 64 && Owns(b, sq, c) && AttackedBy(o, c.Opponent(), sq) ==> AttackedBy(o, c, sq)
  {
    CountZero(Squares, HangingSquares(b, o, c));
    forall sq | 0 <= sq < 64
      ensures HangingSquares(b, o, c)(sq) <==> Owns(b, sq, c) && !AttackedBy(o, c, sq) && AttackedBy(o, c.Opponent(), sq)
    {
    }
  }

  /** Coordination is zero exactly when colour `c` attacks none of its own pieces. */
  lemma NoCoordination(b: Board, o: Oracle, c: Color)
    ensures PieceCoordination(b, o, c) == 0
        <==> forall sq :: 0 <= sq < 64 && Owns(b, sq, c) ==> !AttackedBy(o, c, sq)
  {
    CountZero(Squares, DefendedSquares(b, o, c));
    forall sq | 0 <= sq < 64
      ensures DefendedSquares(b, o, c)(sq) <==> Owns(b, sq, c) && AttackedBy(o, c, sq)
    {
    }
  }

  /** The back rank of colour `c`: rank 1 (index 0) for White, rank 8 (index 7) for Black. */
  function HomeRank(c: Color): int
  {
    if c == White then 0 else 7
  }

  /** Development is zero exactly when every knight and bishop of colour `c` is on its back rank. */
  lemma NoDevelopment(b: Board, c: Color)
    ensures Development(b, c) == 0
        <==> forall sq :: 0 <= sq < 64 && (Holds(b, sq, Knight, c) || Holds(b, sq, Bishop, c)) ==> RankOf(sq) == HomeRank(c)
  {
    CountZero(Squares, DevelopedMinors(b, c));
    forall sq | 0 <= sq < 64
      ensures DevelopedMinors(b, c)(sq) <==> (Holds(b, sq, Knight, c) || Holds(b, sq, Bishop, c)) && RankOf(sq) != HomeRank(c)
    {
    }
  }

  /** Rook activity is zero exactly when every rook of colour `c` shares its file with a pawn. */
  lemma NoOpenRooks(b: Board, c: Color)
    ensures RookActivity(b, c) == 0
        <==> forall sq :: 0 <= sq < 64 && Holds(b, sq, Rook, c) ==> FileHasPawn(b, FileOf(sq))
  {
    CountZero(Squares, RooksOnOpenFiles(b, c));
    forall sq | 0 <= sq < 64
      ensures RooksOnOpenFiles(b, c)(sq) <==> Holds(b, sq, Rook, c) && !FileHasPawn(b, FileOf(sq))
    {
    }
  }

  /** No pin is counted exactly when `is_pinned` reports none of colour `c`'s non-king pieces. */
  lemma NoPins(b: Board, o: Oracle, c: Color)
    ensures PinnedPieces(b, o, c) == 0
        <==> forall sq :: 0 <= sq < 64 && Owns(b, sq, c) && At(b, sq).value.kind != King ==> !Pinned(o, c, sq)
  {
    CountZero(Squares, PinnedSquares(b, o, c));
    forall sq | 0 <= sq < 64
      ensures PinnedSquares(b, o, c)(sq) <==> Owns(b, sq, c) && At(b, sq).value.kind != King && Pinned(o, c, sq)
    {
    }
  }

  /** No rook is on the seventh rank exactly when every rook of colour `c` is elsewhere. */
  lemma NoRookOnSeventh(b: Board, c: Color)
    ensures RookOnSeventh(b, c) == 0
        <==> forall sq :: 0 <= sq < 64 && Holds(b, sq, Rook, c) ==> RankOf(sq) != SeventhRank(c)
  {
    CountZero(Squares, RooksOnSeventh(b, c));
    forall sq | 0 <= sq < 64
      ensures RooksOnSeventh(b, c)(sq) <==> Holds(b, sq, Rook, c) && RankOf(sq) == SeventhRank(c)
    {
    }
  }

  /** No pawn is backward exactly when every pawn of colour `c` has a pawn on one of its supporter squares. */
  lemma NoBackwardPawns(b: Board, c: Color)
    ensures BackwardPawns(b, c) == 0
        <==> forall sq :: 0 <= sq < 64 && Holds(b, sq, Pawn, c) ==>
               Supports(b, SupporterSquares(c, sq).0) || Supports(b, SupporterSquares(c, sq).1)
  {
    CountZero(Squares, BackwardSquares(b, c));
    forall sq | 0 <= sq < 64
      ensures BackwardSquares(b, c)(sq)
          <==> Holds(b, sq, Pawn, c) && !(Supports(b, SupporterSquares(c, sq).0) || Supports(b, SupporterSquares(c, sq).1))
    {
    }
  }

  /** A pawn is passed exactly when no enemy piece stands higher up its file. */
  lemma PassedBlocked(b: Board, c: Color, sq: int)
    requires Holds(b, sq, Pawn, c)
    ensures !PassedPawns(b, c)(sq) <==> exists r :: RankOf(sq) < r < 8 && EnemyAt(b, c, SquareAt(FileOf(sq), r))
  {
  }

  /** No pawn is passed exactly when each pawn of colour `c` has an enemy piece higher up its file. */
  lemma NoPassedPawns(b: Board, c: Color)
    ensures PawnStructure(b, c).passed == 0
        <==> forall sq :: 0 <= sq < 64 && Holds(b, sq, Pawn, c) ==>
               exists r :: RankOf(sq) < r < 8 && EnemyAt(b, c, SquareAt(FileOf(sq), r))
  {
    CountZero(Squares, PassedPawns(b, c));
    forall sq | 0 <= sq < 64 && Holds(b, sq, Pawn, c) {
      PassedBlocked(b, c, sq);
    }
    forall sq | 0 <= sq < 64 && !Holds(b, sq, Pawn, c)
      ensures !PassedPawns(b, c)(sq)
    {
    }
  }

  /** Outposts are zero exactly when the opponent attacks every square a knight of colour `c` jumps to. */
  lemma NoOutposts(b: Board, o: Oracle, c: Color)
    ensures Outposts(b, o, c) == 0
        <==> forall n, t :: 0 <= n < 64 && Holds(b, n, Knight, c) && KnightStep(n, t) ==> AttackedBy(o, c.Opponent(), t)
  {
    SumZero(Squares, OutpostTerm(b, o, c));
    forall n | 0 <= n < 64 {
      KnightCovered(b, o, c, n);
    }
  }

  /** A square's outpost term is zero exactly when it holds no knight of `c` or every jump target is attacked. */
  lemma KnightCovered(b: Board, o: Oracle, c: Color, n: int)
    requires 0 <= n < 64
    ensures 0 <= OutpostTerm(b, o, c)(n)
    ensures OutpostTerm(b, o, c)(n) == 0
        <==> (Holds(b, n, Knight, c) ==> forall t :: KnightStep(n, t) ==> AttackedBy(o, c.Opponent(), t))
  {
    CountZero(Squares, SafeKnightTargets(o, c, n));
    forall t | 0 <= t < 64
      ensures SafeKnightTargets(o, c, n)(t) <==> KnightStep(n, t) && !AttackedBy(o, c.Opponent(), t)
    {
    }
  }

  /** King-zone control is zero exactly when colour `c` attacks no square next to its king. */
  lemma NoKingZoneControl(b: Board, o: Oracle, c: Color)
    requires KingSquare(b, c).Some?
    ensures KingZoneControl(b, o, c) == Some(0)
        <==> forall t :: KingStep(KingSquare(b, c).value, t) ==> !AttackedBy(o, c, t)
  {
    CountZero(Squares, ZoneAttackedBy(o, KingSquare(b, c).value, c));
    forall t | 0 <= t < 64
      ensures ZoneAttackedBy(o, KingSquare(b, c).value, c)(t) <==> KingStep(KingSquare(b, c).value, t) && AttackedBy(o, c, t)
    {
    }
  }

  /**
    The pawn shield is zero exactly when none of the (at most three) squares
    one rank in front of the king, on its file and the files beside it,
    holds a pawn of colour `c`.
   */
  lemma NoPawnShield(b: Board, c: Color)
    requires KingSquare(b, c).Some?
    ensures PawnShield(b, c) == Some(0)
        <==> forall f :: FileOf(KingSquare(b, c).value) - 1 <= f <= FileOf(KingSquare(b, c).value) + 1 && 0 <= f < 8
               && 0 <= FrontRank(c, RankOf(KingSquare(b, c).value)) < 8
               ==> !Holds(b, SquareAt(f, FrontRank(c, RankOf(KingSquare(b, c).value))), Pawn, c)
  {
  }

  /** A colour that still holds a castling right is reported "Exposed", whatever attacks its king zone. */
  lemma CastlingRightExposes(b: Board, o: Oracle, c: Color)
    requires KingSquare(b, c).Some? && HasCastlingRights(b, c)
    ensures KingSafety(b, o, c) == Some(Exposed)
  {
  }
}
