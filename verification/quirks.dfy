/**
  Behaviour the pawn features have as written, which differs from the chess
  notions they are named after. The model keeps the behaviour; these lemmas
  pin it down.
 */
module Quirks {
  import opened Optional
  import opened Chess
  import opened Features
  import opened Counting

  /**
    The passed-pawn test looks toward rank 8 for Black too: a black pawn with
    a white pawn directly in front of it (one rank lower) still counts as
    passed when no white piece stands above it on its file.
   */
  lemma BlackPassedLooksBackward(b: Board, sq: Square)
    requires Holds(b, sq, Pawn, Black) && sq >= 8
    requires Holds(b, sq - 8, Pawn, White)
    requires forall r :: RankOf(sq) < r < 8 ==> !EnemyAt(b, Black, SquareAt(FileOf(sq), r))
    ensures PassedPawn(b, Black, sq)
    ensures EnemyAt(b, Black, sq - 8) && FileOf(sq - 8) == FileOf(sq)
  {
  }

  /** Any piece of the other colour directly above a pawn stops it being passed, not only a pawn. */
  lemma AnyEnemyBlocks(b: Board, c: Color, sq: Square)
    requires Holds(b, sq, Pawn, c) && sq + 8 < 64
    requires EnemyAt(b, c, sq + 8)
    ensures !PassedPawn(b, c, sq)
  {
    assert SquareAt(FileOf(sq), RankOf(sq) + 1) == sq + 8;
  }

  /**
    The supporter squares wrap around the board edge: for a white pawn on the
    a-file, the "left" supporter is the h-file square two ranks lower, and a
    pawn there keeps it from being backward.
   */
  lemma SupporterWrapsAtEdge(b: Board, sq: Square)
    requires Holds(b, sq, Pawn, White) && FileOf(sq) == 0 && sq >= 16
    requires At(b, sq - 9).Some? && At(b, sq - 9).value.kind == Pawn
    ensures SupporterSquares(White, sq).0 == sq - 9
    ensures FileOf(sq - 9) == 7 && RankOf(sq - 9) == RankOf(sq) - 2
    ensures !Backward(b, White, sq)
  {
  }

  /** A pawn of the other colour on a supporter square also keeps a pawn from being backward. */
  lemma EnemyPawnSupports(b: Board, c: Color, sq: Square)
    requires Holds(b, sq, Pawn, c)
    requires Holds(b, SupporterSquares(c, sq).1, Pawn, c.Opponent())
    ensures !Backward(b, c, sq)
  {
  }

  /**
    Passed-pawn advancement adds the absolute rank index for Black too: a
    lone passed black pawn adds its rank index, so one still on its starting
    rank (index 6) adds 6 and one about to promote (index 1) adds 1.
   */
  lemma BlackAdvancementIsAbsoluteRank(b: Board, sq: Square)
    requires PassedPawn(b, Black, sq)
    requires forall s :: 0 <= s < 64 && s != sq ==> !PassedPawn(b, Black, s)
    ensures PassedPawnAdvancement(b, Black) == RankOf(sq)
  {
    SumSingle(Squares, AdvancementTerm(b, Black), sq);
  }
}
