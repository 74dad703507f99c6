/**
  The positional-heuristic feature bank: one function per feature, each a
  count (or a weighted sum) over the 64 squares, the 8 files, the four centre
  squares or the legal-move list of a board snapshot. The same rules appear
  twice in the repository, once as module-level functions and once as methods
  of a class; this is the single definition of each.

  A feature that needs `king(color)` returns an Option: None stands for the
  TypeError `board.king(color)` leads to when that colour has no king.
 */
module Features {
  import opened Optional
  import opened Chess
  import opened Oracles
  import opened Counting

  // ---------------------------------------------------------------------------
  // Selectors shared by several features
  // ---------------------------------------------------------------------------

  /** The squares holding a piece of kind `kind` and colour `c` (`pieces(kind, c)`). */
  function PiecesOf(b: Board, kind: PieceType, c: Color): int -> bool
  {
    sq => Holds(b, sq, kind, c)
  }

  /** The squares holding any piece of colour `c`. */
  function PiecesOfColor(b: Board, c: Color): int -> bool
  {
    sq => Owns(b, sq, c)
  }

  /** Number of pieces of kind `kind` and colour `c`. */
  function PieceCount(b: Board, kind: PieceType, c: Color): nat
  {
    Count(Squares, PiecesOf(b, kind, c))
  }

  /** Number of pieces of colour `c`, of any kind. */
  function ColorCount(b: Board, c: Color): nat
  {
    Count(Squares, PiecesOfColor(b, c))
  }

  /** The squares adjacent to `k` (the king zone) that colour `c` attacks. */
  function ZoneAttackedBy(o: Oracle, k: Square, c: Color): int -> bool
  {
    t => KingStep(k, t) && AttackedBy(o, c, t)
  }

  /** The offsets a king step can take on the square index. */
  lemma KingStepOffsets(from: int, to: int)
    requires KingStep(from, to)
    ensures to in [from - 9, from - 8, from - 7, from - 1, from + 1, from + 7, from + 8, from + 9]
  {
    assert from == 8 * RankOf(from) + FileOf(from);
    assert to == 8 * RankOf(to) + FileOf(to);
  }

  /** The offsets a knight jump can take on the square index. */
  lemma KnightStepOffsets(from: int, to: int)
    requires KnightStep(from, to)
    ensures to in [from - 17, from - 15, from - 10, from - 6, from + 6, from + 10, from + 15, from + 17]
  {
    assert from == 8 * RankOf(from) + FileOf(from);
    assert to == 8 * RankOf(to) + FileOf(to);
  }

  /** At most eight squares of the king zone pass any test. */
  lemma ZoneBound(k: Square, p: int -> bool)
    requires forall t :: 0 <= t < 64 && p(t) ==> KingStep(k, t)
    ensures Count(Squares, p) <= 8
  {
    var s := [k - 9, k - 8, k - 7, k - 1, k + 1, k + 7, k + 8, k + 9];
    forall t | 0 <= t < 64 && p(t) ensures t in s {
      KingStepOffsets(k, t);
    }
    CountWithinSeq(Squares, p, s);
  }

  // ---------------------------------------------------------------------------
  // material, mobility
  // ---------------------------------------------------------------------------

  /** Value of the piece of colour `c` on each square, 0 elsewhere. */
  function MaterialTerm(b: Board, c: Color): int -> int
  {
    sq => if Owns(b, sq, c) then PieceValue(At(b, sq).value.kind) else 0
  }

  /** The value on one square, split by piece kind. */
  lemma MaterialTermSplit(b: Board, c: Color, sq: int)
    ensures MaterialTerm(b, c)(sq)
         == 9 * Indicator(PiecesOf(b, Queen, c)(sq)) + 5 * Indicator(PiecesOf(b, Rook, c)(sq))
          + 3 * (Indicator(PiecesOf(b, Knight, c)(sq)) + Indicator(PiecesOf(b, Bishop, c)(sq)))
          + Indicator(PiecesOf(b, Pawn, c)(sq))
  {
  }

  /**
    A sum whose every term is the material weight of the kinds that pass
    five tests is the weighted sum of the five counts.
   */
  lemma {:induction false} WeightedCount(n: nat, w: int -> int, queen: int -> bool, rook: int -> bool,
                                         knight: int -> bool, bishop: int -> bool, pawn: int -> bool)
    requires forall i :: 0 <= i < n ==>
               w(i) == 9 * Indicator(queen(i)) + 5 * Indicator(rook(i))
                     + 3 * (Indicator(knight(i)) + Indicator(bishop(i))) + Indicator(pawn(i))
    ensures Sum(n, w) == 9 * Count(n, queen) + 5 * Count(n, rook)
                       + 3 * (Count(n, knight) + Count(n, bishop)) + Count(n, pawn)
  {
    if n > 0 {
      WeightedCount(n - 1, w, queen, rook, knight, bishop, pawn);
      SumStep(n, w);
      CountStep(n, queen);
      CountStep(n, rook);
      CountStep(n, knight);
      CountStep(n, bishop);
      CountStep(n, pawn);
    }
  }

  /** The material on the first n squares, split by piece kind. */
  lemma MaterialByKind(b: Board, c: Color, n: nat)
    ensures Sum(n, MaterialTerm(b, c))
         == 9 * Count(n, PiecesOf(b, Queen, c)) + 5 * Count(n, PiecesOf(b, Rook, c))
          + 3 * (Count(n, PiecesOf(b, Knight, c)) + Count(n, PiecesOf(b, Bishop, c)))
          + Count(n, PiecesOf(b, Pawn, c))
  {
    forall sq | 0 <= sq < n {
      MaterialTermSplit(b, c, sq);
    }
    WeightedCount(n, MaterialTerm(b, c), PiecesOf(b, Queen, c), PiecesOf(b, Rook, c),
                  PiecesOf(b, Knight, c), PiecesOf(b, Bishop, c), PiecesOf(b, Pawn, c));
  }

  /**
    `get_material`, one colour: the sum of the piece values over the squares
    that colour occupies. Kings add nothing, so it is exactly the weighted
    count of queens, rooks, minor pieces and pawns.
   */
  function Material(b: Board, c: Color): (r: int)
    ensures r == 9 * PieceCount(b, Queen, c) + 5 * PieceCount(b, Rook, c)
               + 3 * (PieceCount(b, Knight, c) + PieceCount(b, Bishop, c))
               + PieceCount(b, Pawn, c)
    ensures 0 <= r
  {
    MaterialByKind(b, c, Squares);
    Sum(Squares, MaterialTerm(b, c))
  }

  /** `get_mobility`: the number of legal moves of the side to move. */
  function Mobility(o: Oracle): nat
  {
    |o.legalMoves|
  }

  /** The indices of legal moves whose origin square holds a piece of colour `c`. */
  function MovesOf(b: Board, o: Oracle, c: Color): int -> bool
  {
    i => 0 <= i < |o.legalMoves| && Owns(b, o.legalMoves[i].from, c)
  }

  /** `get_piece_activity`: the legal moves that start on a square of colour `c`. */
  function PieceActivity(b: Board, o: Oracle, c: Color): (r: nat)
    ensures r <= Mobility(o)
    ensures Sound(b, o) && c == b.turn ==> r == Mobility(o)
    ensures Sound(b, o) && c != b.turn ==> r == 0
  {
    CountAll(|o.legalMoves|, MovesOf(b, o, c));
    CountZero(|o.legalMoves|, MovesOf(b, o, c));
    Count(|o.legalMoves|, MovesOf(b, o, c))
  }

  // ---------------------------------------------------------------------------
  // king safety
  // ---------------------------------------------------------------------------

  datatype Safety = Safe | Exposed

  /**
    `get_king_safety`: "Safe" needs at most two squares of the king zone
    attacked by the opponent AND no castling right left; None when colour `c`
    has no king.
   */
  function KingSafety(b: Board, o: Oracle, c: Color): (r: Option<Safety>)
    ensures r.None? <==> KingSquare(b, c).None?
    ensures r == Some(Safe) ==> !HasCastlingRights(b, c)
    ensures r == Some(Safe) ==> Count(Squares, ZoneAttackedBy(o, KingSquare(b, c).value, c.Opponent())) <= 2
    ensures (r.Some? && !HasCastlingRights(b, c)
             && Count(Squares, ZoneAttackedBy(o, KingSquare(b, c).value, c.Opponent())) <= 2) ==> r == Some(Safe)
  {
    match KingSquare(b, c)
    case None => None
    case Some(k) =>
      var unsafe := Count(Squares, ZoneAttackedBy(o, k, c.Opponent()));
      var castled := !HasCastlingRights(b, c);
      Some(if unsafe <= 2 && castled then Safe else Exposed)
  }

  // ---------------------------------------------------------------------------
  // pawn structure
  // ---------------------------------------------------------------------------

  datatype PawnReport = PawnReport(doubled: nat, isolated: nat, passed: nat)

  /** `files.count(f)`: the pawns of colour `c` on file `f`. */
  function PawnsOnFile(b: Board, c: Color, f: int): nat
  {
    Count(8, FilePawns(b, c, f))
  }

  /** The ranks of file `f` holding a pawn of colour `c`. */
  function FilePawns(b: Board, c: Color, f: int): int -> bool
  {
    r => Holds(b, SquareAt(f, r), Pawn, c)
  }

  /** The files in `set(files)`: files holding at least one pawn of colour `c`. */
  function PawnFiles(b: Board, c: Color): int -> bool
  {
    f => PawnsOnFile(b, c, f) > 0
  }

  /** Number of distinct files holding a pawn of colour `c`. */
  function DistinctPawnFiles(b: Board, c: Color): (r: nat)
    ensures r <= 8
  {
    Count(8, PawnFiles(b, c))
  }

  /** The files holding more than one pawn of colour `c`. */
  function DoubledFiles(b: Board, c: Color): int -> bool
  {
    f => PawnsOnFile(b, c, f) > 1
  }

  /** A pawn file of colour `c` every other pawn file of which is more than one file away. */
  predicate IsolatedFile(b: Board, c: Color, f: int)
  {
    && PawnsOnFile(b, c, f) > 0
    && forall g :: 0 <= g < 8 && g != f && PawnsOnFile(b, c, g) > 0 ==> Abs(f - g) > 1
  }

  function IsolatedFiles(b: Board, c: Color): int -> bool
  {
    f => IsolatedFile(b, c, f)
  }

  /** A piece of the other colour stands on `sq`. */
  predicate EnemyAt(b: Board, c: Color, sq: int)
  {
    At(b, sq).Some? && At(b, sq).value.color != c
  }

  /**
    The passed-pawn test as `get_pawn_structure` writes it: a pawn of colour `c` with no
    piece of the other colour (of any kind) on a strictly higher rank of its
    file. The test looks toward rank 8 for both colours.
   */
  predicate PassedPawn(b: Board, c: Color, sq: int)
  {
    && Holds(b, sq, Pawn, c)
    && forall r :: RankOf(sq) < r < 8 ==> !EnemyAt(b, c, SquareAt(FileOf(sq), r))
  }

  function PassedPawns(b: Board, c: Color): int -> bool
  {
    sq => PassedPawn(b, c, sq)
  }

  /**
    `get_pawn_structure`: doubled and isolated count files (not pawns), passed
    counts pawns. Each file count is bounded by the number of pawn files and
    the passed count by the number of pawns.
   */
  function PawnStructure(b: Board, c: Color): (r: PawnReport)
    ensures r.doubled <= DistinctPawnFiles(b, c)
    ensures r.isolated <= DistinctPawnFiles(b, c)
    ensures r.passed <= PieceCount(b, Pawn, c)
  {
    CountMono(8, DoubledFiles(b, c), PawnFiles(b, c));
    CountMono(8, IsolatedFiles(b, c), PawnFiles(b, c));
    CountMono(Squares, PassedPawns(b, c), PiecesOf(b, Pawn, c));
    PawnReport(Count(8, DoubledFiles(b, c)), Count(8, IsolatedFiles(b, c)), Count(Squares, PassedPawns(b, c)))
  }

  // ---------------------------------------------------------------------------
  // centre, development, files
  // ---------------------------------------------------------------------------

  /** d4, d5, e4, e5, in the order `get_center_control` lists them. */
  const Center: seq<Square> := [27, 35, 28, 36]

  function CenterAttacked(o: Oracle, c: Color): int -> bool
  {
    i => 0 <= i < 4 && AttackedBy(o, c, Center[i])
  }

  function CenterWeak(b: Board, o: Oracle, c: Color): int -> bool
  {
    i => 0 <= i < 4 && !AttackedBy(o, c, Center[i]) && At(b, Center[i]).None?
  }

  /** `get_center_control`: how many of the four centre squares colour `c` attacks. */
  function CenterControl(o: Oracle, c: Color): (r: nat)
    ensures r <= 4
    ensures r == 4 <==> forall i :: 0 <= i < 4 ==> AttackedBy(o, c, Center[i])
  {
    Count(4, CenterAttacked(o, c))
  }

  /** `get_weak_squares`: centre squares that colour `c` does not attack and that are empty. */
  function WeakSquares(b: Board, o: Oracle, c: Color): (r: nat)
    ensures r <= 4
    ensures r > 0 ==> exists i :: 0 <= i < 4 && At(b, Center[i]).None?
  {
    Count(4, CenterWeak(b, o, c))
  }

  /** A knight or bishop of colour `c` that has left its own back rank. */
  predicate Developed(b: Board, c: Color, sq: int)
  {
    && (Holds(b, sq, Knight, c) || Holds(b, sq, Bishop, c))
    && (if c == White then RankOf(sq) > 0 else RankOf(sq) < 7)
  }

  function DevelopedMinors(b: Board, c: Color): int -> bool
  {
    sq => Developed(b, c, sq)
  }

  function MinorPieces(b: Board, c: Color): int -> bool
  {
    sq => Holds(b, sq, Knight, c) || Holds(b, sq, Bishop, c)
  }

  /** `get_development`: the minor pieces of colour `c` off their back rank. */
  function Development(b: Board, c: Color): (r: nat)
    ensures r <= PieceCount(b, Knight, c) + PieceCount(b, Bishop, c)
  {
    CountMono(Squares, DevelopedMinors(b, c), MinorPieces(b, c));
    CountSplit(Squares, MinorPieces(b, c), PiecesOf(b, Knight, c), PiecesOf(b, Bishop, c));
    Count(Squares, DevelopedMinors(b, c))
  }

  /** Some rank of file `f` holds a pawn of either colour. */
  predicate FileHasPawn(b: Board, f: int)
  {
    exists r :: 0 <= r < 8 && At(b, SquareAt(f, r)).Some? && At(b, SquareAt(f, r)).value.kind == Pawn
  }

  function RooksOnOpenFiles(b: Board, c: Color): int -> bool
  {
    sq => Holds(b, sq, Rook, c) && !FileHasPawn(b, FileOf(sq))
  }

  function QueensOnOpenFiles(b: Board, c: Color): int -> bool
  {
    sq => Holds(b, sq, Queen, c) && !FileHasPawn(b, FileOf(sq))
  }

  function HeavyOnOpenFiles(b: Board, c: Color): int -> bool
  {
    sq => (Holds(b, sq, Rook, c) || Holds(b, sq, Queen, c)) && !FileHasPawn(b, FileOf(sq))
  }

  /** `get_rook_activity`: rooks of colour `c` on a file with no pawn of either colour. */
  function RookActivity(b: Board, c: Color): (r: nat)
    ensures r <= PieceCount(b, Rook, c)
  {
    CountMono(Squares, RooksOnOpenFiles(b, c), PiecesOf(b, Rook, c));
    Count(Squares, RooksOnOpenFiles(b, c))
  }

  /** `get_open_file_control`: rooks and queens of colour `c` on a pawnless file. */
  function OpenFileControl(b: Board, c: Color): (r: nat)
    ensures r == RookActivity(b, c) + Count(Squares, QueensOnOpenFiles(b, c))
    ensures RookActivity(b, c) <= r <= PieceCount(b, Rook, c) + PieceCount(b, Queen, c)
  {
    CountMono(Squares, QueensOnOpenFiles(b, c), PiecesOf(b, Queen, c));
    CountSplit(Squares, HeavyOnOpenFiles(b, c), RooksOnOpenFiles(b, c), QueensOnOpenFiles(b, c));
    Count(Squares, HeavyOnOpenFiles(b, c))
  }

  // ---------------------------------------------------------------------------
  // attacks on pieces
  // ---------------------------------------------------------------------------

  /** A piece of colour `c` attacked by the opponent and not by its own side. */
  function HangingSquares(b: Board, o: Oracle, c: Color): int -> bool
  {
    sq => Owns(b, sq, c) && !AttackedBy(o, c, sq) && AttackedBy(o, c.Opponent(), sq)
  }

  /** A piece of colour `c` attacked by its own side. */
  function DefendedSquares(b: Board, o: Oracle, c: Color): int -> bool
  {
    sq => Owns(b, sq, c) && AttackedBy(o, c, sq)
  }

  /** `get_hanging_pieces`. */
  function HangingPieces(b: Board, o: Oracle, c: Color): (r: nat)
    ensures r <= ColorCount(b, c)
  {
    CountMono(Squares, HangingSquares(b, o, c), PiecesOfColor(b, c));
    Count(Squares, HangingSquares(b, o, c))
  }

  /** `get_piece_coordination`. */
  function PieceCoordination(b: Board, o: Oracle, c: Color): (r: nat)
    ensures r <= ColorCount(b, c)
  {
    CountMono(Squares, DefendedSquares(b, o, c), PiecesOfColor(b, c));
    Count(Squares, DefendedSquares(b, o, c))
  }

  /** `get_bishop_pair_bonus`: 1 when colour `c` holds at least two bishops. */
  function BishopPairBonus(b: Board, c: Color): (r: nat)
    ensures r <= 1
    ensures r == 1 ==> exists s1, s2 :: 0 <= s1 < s2 < 64 && Holds(b, s1, Bishop, c) && Holds(b, s2, Bishop, c)
    ensures r == 0 ==> PieceCount(b, Bishop, c) <= 1
  {
    if PieceCount(b, Bishop, c) >= 2 then
      CountTwo(Squares, PiecesOf(b, Bishop, c));
      1
    else 0
  }

  /** The squares of the half of the board facing colour `c`'s opponent. */
  predicate OpponentHalf(c: Color, sq: int)
  {
    if c == White then 4 <= RankOf(sq) else RankOf(sq) < 4
  }

  function Half(c: Color): int -> bool
  {
    sq => OpponentHalf(c, sq)
  }

  /** Each half of the board has 32 squares: ranks 5-8 are squares 32-63, ranks 1-4 squares 0-31. */
  lemma HalfSize(c: Color)
    ensures Count(Squares, Half(c)) == 32
  {
    forall i | 0 <= i < 64 ensures Half(c)(i) <==> (if c == White then 32 <= i else i < 32) {
      assert 8 * RankOf(i) <= i < 8 * RankOf(i) + 8;
    }
    if c == White { CountSuffix(Squares, Half(c), 32); } else { CountPrefix(Squares, Half(c), 32); }
  }

  function SpaceSquares(o: Oracle, c: Color): int -> bool
  {
    sq => OpponentHalf(c, sq) && AttackedBy(o, c, sq)
  }

  /** `get_space_advantage`: squares of the opponent's half attacked by colour `c`. */
  function SpaceAdvantage(o: Oracle, c: Color): (r: nat)
    ensures r <= 32
  {
    CountMono(Squares, SpaceSquares(o, c), Half(c));
    HalfSize(c);
    Count(Squares, SpaceSquares(o, c))
  }

  /** The squares a knight on `n` jumps to that colour `c`'s opponent does not attack. */
  function SafeKnightTargets(o: Oracle, c: Color, n: int): int -> bool
  {
    t => KnightStep(n, t) && !AttackedBy(o, c.Opponent(), t)
  }

  /** A knight has at most eight targets. */
  lemma KnightTargetsBound(o: Oracle, c: Color, n: int)
    ensures Count(Squares, SafeKnightTargets(o, c, n)) <= 8
  {
    var s := [n - 17, n - 15, n - 10, n - 6, n + 6, n + 10, n + 15, n + 17];
    forall t | 0 <= t < 64 && SafeKnightTargets(o, c, n)(t) ensures t in s {
      KnightStepOffsets(n, t);
    }
    CountWithinSeq(Squares, SafeKnightTargets(o, c, n), s);
  }

  function OutpostTerm(b: Board, o: Oracle, c: Color): int -> int
  {
    n => if Holds(b, n, Knight, c) then Count(Squares, SafeKnightTargets(o, c, n)) else 0
  }

  /**
    `get_outposts`: pairs (knight of colour `c`, square it attacks) where the
    square is not attacked by the opponent; at most eight per knight.
   */
  function Outposts(b: Board, o: Oracle, c: Color): (r: int)
    ensures 0 <= r <= 8 * PieceCount(b, Knight, c)
  {
    forall n | 0 <= n < 64 && Holds(b, n, Knight, c)
      ensures OutpostTerm(b, o, c)(n) <= 8
    {
      KnightTargetsBound(o, c, n);
    }
    SumBound(Squares, OutpostTerm(b, o, c), PiecesOf(b, Knight, c), 8);
    Sum(Squares, OutpostTerm(b, o, c))
  }

  function PinnedSquares(b: Board, o: Oracle, c: Color): int -> bool
  {
    sq => Owns(b, sq, c) && At(b, sq).value.kind != King && Pinned(o, c, sq)
  }

  /** `get_pinned_pieces`: non-king pieces of colour `c` that `is_pinned` reports. */
  function PinnedPieces(b: Board, o: Oracle, c: Color): (r: nat)
    ensures r <= ColorCount(b, c)
  {
    CountMono(Squares, PinnedSquares(b, o, c), PiecesOfColor(b, c));
    Count(Squares, PinnedSquares(b, o, c))
  }

  datatype Balance = Balance(attacked: nat, defended: nat)

  /** Occupied squares (of either colour) that colour `c` attacks. */
  function OccupiedAttackedBy(b: Board, o: Oracle, c: Color): int -> bool
  {
    sq => At(b, sq).Some? && AttackedBy(o, c, sq)
  }

  /**
    `get_attacked_vs_defended_balance`: over EVERY occupied square, whichever
    colour holds it, how many the opponent attacks and how many colour `c`
    attacks.
   */
  function AttackedVsDefended(b: Board, o: Oracle, c: Color): (r: Balance)
    ensures r.attacked <= ColorCount(b, White) + ColorCount(b, Black)
    ensures r.defended <= ColorCount(b, White) + ColorCount(b, Black)
  {
    var occupied := sq => At(b, sq).Some?;
    CountSplit(Squares, occupied, PiecesOfColor(b, White), PiecesOfColor(b, Black));
    CountMono(Squares, OccupiedAttackedBy(b, o, c.Opponent()), occupied);
    CountMono(Squares, OccupiedAttackedBy(b, o, c), occupied);
    Balance(Count(Squares, OccupiedAttackedBy(b, o, c.Opponent())), Count(Squares, OccupiedAttackedBy(b, o, c)))
  }

  /** `get_king_zone_control`: king-zone squares that colour `c` itself attacks. */
  function KingZoneControl(b: Board, o: Oracle, c: Color): (r: Option<nat>)
    ensures r.None? <==> KingSquare(b, c).None?
    ensures r.Some? ==> r.value <= 8
  {
    match KingSquare(b, c)
    case None => None
    case Some(k) =>
      ZoneBound(k, ZoneAttackedBy(o, k, c));
      Some(Count(Squares, ZoneAttackedBy(o, k, c)))
  }

  /** Rank 7 for White (index 6), rank 2 for Black (index 1). */
  function SeventhRank(c: Color): int
  {
    if c == White then 6 else 1
  }

  function RooksOnSeventh(b: Board, c: Color): int -> bool
  {
    sq => Holds(b, sq, Rook, c) && RankOf(sq) == SeventhRank(c)
  }

  /** `get_rook_on_7th_rank`. */
  function RookOnSeventh(b: Board, c: Color): (r: nat)
    ensures r <= PieceCount(b, Rook, c)
    ensures r <= 8
  {
    CountMono(Squares, RooksOnSeventh(b, c), PiecesOf(b, Rook, c));
    var rank := Interval(8 * SeventhRank(c), 8);
    CountMono(Squares, RooksOnSeventh(b, c), rank);
    CountInterval(Squares, 8 * SeventhRank(c), 8);
    Count(Squares, RooksOnSeventh(b, c))
  }

  /** Colour `c`'s rooks stand on exactly the two squares s1 < s2. */
  predicate RooksExactlyOn(b: Board, c: Color, s1: int, s2: int)
  {
    && 0 <= s1 < s2 < 64
    && Holds(b, s1, Rook, c)
    && Holds(b, s2, Rook, c)
    && forall sq :: 0 <= sq < 64 && Holds(b, sq, Rook, c) ==> sq == s1 || sq == s2
  }

  /**
    `get_connected_rooks`: 1 when colour `c` has exactly two rooks and both
    rook squares are attacked by colour `c` (by any of its pieces).
   */
  function ConnectedRooks(b: Board, o: Oracle, c: Color): (r: nat)
    ensures r <= 1
    ensures r == 1 ==> exists s1, s2 :: RooksExactlyOn(b, c, s1, s2) && AttackedBy(o, c, s1) && AttackedBy(o, c, s2)
  {
    if PieceCount(b, Rook, c) == 2
       && forall sq :: 0 <= sq < 64 && Holds(b, sq, Rook, c) ==> AttackedBy(o, c, sq)
    then
      assert exists s1, s2 :: RooksExactlyOn(b, c, s1, s2) by {
        CountExactlyTwo(Squares, PiecesOf(b, Rook, c));
        var s1, s2 :| 0 <= s1 < s2 < 64 && PiecesOf(b, Rook, c)(s1) && PiecesOf(b, Rook, c)(s2)
                      && forall k :: 0 <= k < 64 && PiecesOf(b, Rook, c)(k) ==> k == s1 || k == s2;
        forall sq | 0 <= sq < 64 && Holds(b, sq, Rook, c) ensures sq == s1 || sq == s2 {
          assert PiecesOf(b, Rook, c)(sq);
        }
        assert RooksExactlyOn(b, c, s1, s2);
      }
      1
    else 0
  }

  function AdvancementTerm(b: Board, c: Color): int -> int
  {
    sq => if PassedPawn(b, c, sq) then RankOf(sq) else 0
  }

  /**
    `get_passed_pawn_advancement`: the sum of the (absolute) ranks of the pawns
    that pass the same test as the passed count, so at most 7 per passed pawn.
   */
  function PassedPawnAdvancement(b: Board, c: Color): (r: int)
    ensures 0 <= r <= 7 * PawnStructure(b, c).passed
  {
    SumBound(Squares, AdvancementTerm(b, c), PassedPawns(b, c), 7);
    Sum(Squares, AdvancementTerm(b, c))
  }

  /** The rank in front of a king on rank `rank`, toward the opponent. */
  function FrontRank(c: Color, rank: int): int
  {
    if c == White then rank + 1 else rank - 1
  }

  function ShieldPawns(b: Board, c: Color, k: Square): int -> bool
  {
    i =>
      var f := FileOf(k) - 1 + i;
      var front := FrontRank(c, RankOf(k));
      0 <= f < 8 && 0 <= front < 8 && Holds(b, SquareAt(f, front), Pawn, c)
  }

  /** `get_pawn_shield`: own pawns on the three files around the king, one rank in front. */
  function PawnShield(b: Board, c: Color): (r: Option<nat>)
    ensures r.None? <==> KingSquare(b, c).None?
    ensures r.Some? ==> r.value <= 3
  {
    match KingSquare(b, c)
    case None => None
    case Some(k) => Some(Count(3, ShieldPawns(b, c, k)))
  }

  /**
    The two squares `get_backward_pawns` checks for a supporting pawn, computed as raw
    `file +- 1 + 8 * (rank -+ 1)` without any file-edge check.
   */
  function SupporterSquares(c: Color, sq: int): (int, int)
  {
    var f := FileOf(sq);
    var r := RankOf(sq);
    if c == White then (SquareAt(f - 1, r - 1), SquareAt(f + 1, r - 1))
    else (SquareAt(f - 1, r + 1), SquareAt(f + 1, r + 1))
  }

  /** A pawn of either colour stands on square `s`, which lies on the board. */
  predicate Supports(b: Board, s: int)
  {
    !(s < 0 || s >= 64 || At(b, s).None? || At(b, s).value.kind != Pawn)
  }

  predicate Backward(b: Board, c: Color, sq: int)
  {
    && Holds(b, sq, Pawn, c)
    && !Supports(b, SupporterSquares(c, sq).0)
    && !Supports(b, SupporterSquares(c, sq).1)
  }

  function BackwardSquares(b: Board, c: Color): int -> bool
  {
    sq => Backward(b, c, sq)
  }

  /** `get_backward_pawns`. */
  function BackwardPawns(b: Board, c: Color): (r: nat)
    ensures r <= PieceCount(b, Pawn, c)
  {
    CountMono(Squares, BackwardSquares(b, c), PiecesOf(b, Pawn, c));
    Count(Squares, BackwardSquares(b, c))
  }

  /**
    `get_isolated_weakness_clusters`, written as its loop over the
    pawn files: it agrees with the isolated count of the pawn structure.
   */
  method IsolatedWeaknessClusters(b: Board, c: Color) returns (clusters: nat)
    ensures clusters == PawnStructure(b, c).isolated
    ensures clusters <= DistinctPawnFiles(b, c)
  {
    clusters := 0;
    var f := 0;
    while f < 8
      invariant 0 <= f <= 8
      invariant clusters == Count(f, IsolatedFiles(b, c))
    {
      if IsolatedFile(b, c, f) {
        clusters := clusters + 1;
      }
      f := f + 1;
    }
  }
}
