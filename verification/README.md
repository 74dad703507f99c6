# ChessGptt feature bank, modelled in Dafny

ChessGptt explains chess moves by turning a position into a bundle of
hand-written positional features and reporting which ones changed between
two positions. This project models that core:

- the feature bank: material, mobility, king safety, pawn structure, centre
  control, development, rook activity, threats (hanging pieces), piece
  activity, piece coordination, bishop pair, open-file control, space
  advantage, weak squares, outposts, pinned pieces, attacked-vs-defended
  balance, castling status, king-zone control, rooks on the seventh rank,
  connected rooks, passed-pawn advancement, pawn shield, backward pawns and
  isolated weakness clusters;
- `_extract_all_features`, which collects all of them for both colours into a
  nested bundle;
- `compare_features`, the recursive differ over such bundles;
- `board_pattern_features`, the 768-entry one-hot encoding of a board.

The same feature rules appear twice in the repository: as methods of
`ChessFeatureExtractor` in `features/features.py` (lines 34-248) and as
module-level functions in `backend/features.py` (lines 32-381). The bodies
are identical, so each feature is defined once here. The table cites the
class version; the backend copy is at the same-named `get_*` function.

Files:

- `counting.dfy` (`Counting`): counting and summing over `0..n-1`, with the
  lemmas the features need (disjoint split, monotonicity, bounds).
- `chess.dfy` (`Optional`, `Chess`, `Oracles`): the board snapshot, square
  arithmetic, the `king(color)` lookup, and the python-chess answers the bank
  consumes (`is_attacked_by`, `is_pinned`, `legal_moves`) as an input record.
- `features.dfy` (`Features`): one function per feature.
- `feature_laws.dfy` (`FeatureLaws`): relations between features and how a
  board change moves a count.
- `quirks.dfy` (`Quirks`): behaviour the pawn features have as written.
- `differ.dfy` (`Differ`): bundles and `compare_features`.
- `extraction.dfy` (`Extraction`): `_extract_all_features` and what the
  differ does on extracted bundles.
- `encoder.dfy` (`Encoder`): `board_pattern_features` and its decoder.

Modelling choices:

- Squares are numbered as in python-chess (a1 = 0 ... h8 = 63). `square(file, rank)`
  is plain `rank * 8 + file` with no range check, as in python-chess.
- `king(color)` is the highest-numbered square holding that colour's king
  (python-chess takes the most significant bit of the king mask), or `None`
  when there is none. King safety and king-zone control index the
  king-attack table with that square, and pawn shield takes its rank and
  file; with no king each of the three raises a TypeError. Here those three
  features return `None`, and so does the whole bundle.
- The king-step and knight-jump tables (python-chess's `BB_KING_ATTACKS`
  and `BB_KNIGHT_ATTACKS`) are defined here as `Chess.KingStep` and
  `Chess.KnightStep`: a target on the board at most one file and one rank
  away for the king, one file and two ranks or two files and one rank away
  for the knight, with no wrap-around at the board edge.
- The attack sets, pin sets and legal-move list come from an `Oracle` value.
  The one property assumed of it (`Oracles.Sound`) is that every legal move
  starts on a square of the side to move.
- Bundles follow Python's semantics: `True == 1` on leaves. When `before`
  holds an int or a bool where `after` holds a non-empty mapping,
  `key not in before` raises a TypeError; an empty mapping looks nothing up
  and gives an empty diff. When `before` holds a string, `in` is a substring
  test. The differ returns `None` for the raising cases.
- The code, not its docstrings, decides:
  - `get_mobility` counts the legal moves of the side to move only, though
    the backend docstring says "both sides combined".
  - `get_attacked_vs_defended_balance` walks every occupied square of either
    colour, not only the colour's own pieces.
  - `get_connected_rooks` asks whether each rook square is attacked by its
    own colour, by any piece, not whether the rooks see each other.
- Pawn-feature behaviour that differs from the chess notion is kept as
  written (see `Quirks`):
  - the passed test looks toward rank 8 for Black as well as White;
  - any enemy piece blocks, not only pawns;
  - the backward-pawn supporter squares wrap around the a- and h-files;
  - a pawn of either colour on a supporter square counts as support.
  - passed-pawn advancement adds the absolute rank index for both colours,
    so a black pawn on its starting rank adds 6 and one about to promote
    adds 1.

## Model

| member | source | states |
|---|---|---|
| Chess.KingSquare | features/features.py:50 | the square returned holds a king of that colour and no higher square does; None exactly when the colour has no king |
| Features.Material | features/features.py:34-44 | the material of a colour is 9 per queen + 5 per rook + 3 per knight or bishop + 1 per pawn, kings adding nothing; never negative |
| Features.PieceActivity | features/features.py:115-116 | at most the total number of legal moves; when every legal move starts on a piece of the side to move, the side to move gets them all and the other side none |
| FeatureLaws.MobilityOfSideToMove | features/features.py:46-47 | `Features.Mobility` counts the side to move's moves only: when every legal move starts on a piece of the side to move, mobility equals that side's piece activity and the other side's piece activity is zero |
| FeatureLaws.PieceActivityPartition | features/features.py:46-47 | the two colours' piece activity add up to at most the mobility, and to exactly the mobility when every legal move starts on a piece of the side to move |
| Features.KingSafety | features/features.py:49-56 | "Safe" exactly when the colour has no castling right left and at most two squares next to its king are attacked by the opponent; None exactly when the king is missing |
| Features.PawnStructure | features/features.py:58-80 | doubled and isolated count pawn files, so neither exceeds the number of distinct pawn files; passed never exceeds the number of pawns |
| FeatureLaws.CastlingRightExposes | features/features.py:49-56 | `Chess.HasCastlingRights` (also the value of `get_castling_status`, features/features.py:186-187) holding for a colour with a king makes its king safety "Exposed", whatever attacks its king zone |
| FeatureLaws.SingleFileIsolated | features/features.py:63-66 | a colour whose pawns all stand on one file has exactly one isolated file |
| Quirks.BlackPassedLooksBackward | features/features.py:69-78 | a black pawn with a white pawn directly in front of it counts as passed when no white piece stands on a higher rank of its file |
| Quirks.AnyEnemyBlocks | features/features.py:73-76 | any piece of the other colour one rank above a pawn, not only a pawn, makes it not passed |
| FeatureLaws.NoPassedPawns | features/features.py:68-78 | the passed count is zero exactly when every pawn of the colour has a piece of the other colour somewhere higher up its file |
| Features.CenterControl | features/features.py:82-84 | at most 4, and 4 exactly when the colour attacks d4, d5, e4 and e5 |
| Features.WeakSquares | features/features.py:152-158 | at most 4, and non-zero only if some centre square is empty |
| FeatureLaws.CenterSplit | features/features.py:82-84 | centre control and weak squares of one colour never count the same centre square, so together they are at most 4 |
| Features.Development | features/features.py:86-93 | developed pieces are among the colour's knights and bishops |
| FeatureLaws.DevelopmentComplement | features/features.py:86-93 | developed minor pieces plus minor pieces still on the back rank are exactly all the colour's knights and bishops |
| FeatureLaws.NoDevelopment | features/features.py:86-93 | development is zero exactly when every knight and bishop of the colour stands on its own back rank |
| Features.RookActivity | features/features.py:95-105 | at most the number of the colour's rooks |
| FeatureLaws.NoOpenRooks | features/features.py:95-105 | rook activity is zero exactly when every rook of the colour has a pawn of either colour on its file |
| Features.OpenFileControl | features/features.py:128-140 | rook activity plus the queens on files without pawns, so between rook activity and the number of rooks and queens |
| FeatureLaws.PawnClosesFile | features/features.py:95-105 | a pawn of either colour placed on an empty square of a rook's pawnless file strictly lowers rook activity and open-file control |
| Features.HangingPieces | features/features.py:107-113 | at most the number of the colour's pieces |
| FeatureLaws.NoHangingPieces | features/features.py:107-113 | no piece hangs exactly when every piece of the colour that the opponent attacks is also attacked by its own side |
| Features.PieceCoordination | features/features.py:118-123 | at most the number of the colour's pieces |
| FeatureLaws.NoCoordination | features/features.py:118-123 | coordination is zero exactly when the colour attacks none of its own pieces |
| FeatureLaws.HangingCoordinationDisjoint | features/features.py:107-123 | no piece is both hanging and defended, so the two counts add up to at most the number of the colour's pieces |
| Features.BishopPairBonus | features/features.py:125-126 | 0 or 1; 1 only with two bishops on different squares, 0 only with at most one bishop |
| Features.SpaceAdvantage | features/features.py:142-150 | at most 32, the size of the opponent's half |
| FeatureLaws.SpaceFull | features/features.py:142-150 | space advantage is 32 exactly when the colour attacks every square of the opponent's half |
| Features.Outposts | features/features.py:160-167 | between 0 and 8 per knight of the colour |
| FeatureLaws.KnightCovered | features/features.py:162-166 | one knight adds nothing exactly when the opponent attacks every square it jumps to |
| FeatureLaws.NoOutposts | features/features.py:160-167 | outposts are zero exactly when the opponent attacks every square any knight of the colour jumps to |
| Features.PinnedPieces | features/features.py:169-175 | at most the number of the colour's pieces (kings are never counted) |
| FeatureLaws.NoPins | features/features.py:169-175 | the pin count is zero exactly when no non-king piece of the colour is reported pinned |
| Features.AttackedVsDefended | features/features.py:177-184 | both counts are at most the number of occupied squares |
| FeatureLaws.AttackedMirrorsDefended | features/features.py:177-184 | a colour's "attacked" equals the opponent's "defended"; coordination is at most "defended" and hanging pieces at most "attacked" |
| Features.KingZoneControl | features/features.py:189-193 | at most 8 squares; None exactly when the king is missing |
| FeatureLaws.NoKingZoneControl | features/features.py:189-193 | king-zone control is zero exactly when the colour attacks no square next to its king |
| Features.RookOnSeventh | features/features.py:195-197 | at most the number of rooks and at most the 8 squares of the rank |
| FeatureLaws.NoRookOnSeventh | features/features.py:195-197 | the count is zero exactly when no rook of the colour stands on rank 7 (White) or rank 2 (Black) |
| Features.ConnectedRooks | features/features.py:199-201 | 0 or 1; 1 only when the colour has exactly two rooks and attacks both their squares |
| FeatureLaws.ConnectedRooksExact | features/features.py:199-201 | exactly two rooks on squares their own colour attacks always score 1 |
| Features.PassedPawnAdvancement | features/features.py:203-211 | between 0 and 7 times the passed count of the pawn structure, because it sums ranks over the same pawns |
| Features.PawnShield | features/features.py:213-226 | at most 3; None exactly when the king is missing |
| FeatureLaws.NoPawnShield | features/features.py:213-226 | the shield is zero exactly when no on-board square one rank in front of the king, on its file or a neighbouring one, holds a pawn of the colour |
| Features.BackwardPawns | features/features.py:228-239 | at most the number of the colour's pawns |
| FeatureLaws.NoBackwardPawns | features/features.py:228-239 | no pawn is backward exactly when every pawn of the colour has a pawn of either colour on one of its two supporter squares |
| Quirks.SupporterWrapsAtEdge | features/features.py:234-237 | for a white a-file pawn the left supporter square is the h-file square two ranks lower, and a pawn there stops it being backward |
| Quirks.EnemyPawnSupports | features/features.py:234-237 | a pawn of the other colour on a supporter square also stops a pawn being backward |
| Quirks.BlackAdvancementIsAbsoluteRank | features/features.py:203-211 | a lone passed black pawn adds its absolute rank index to the advancement (6 on its starting rank, 1 about to promote), not its distance travelled |
| Features.IsolatedWeaknessClusters | features/features.py:241-248 | the loop over pawn files gives the isolated count of the pawn structure, at most the number of pawn files |
| Extraction.Feature | features/features.py:255-280 | mobility is a single value; every other feature maps "white" and "black" to a value, or to a record for pawn structure and attacked-vs-defended |
| Extraction.Extract | features/features.py:253-281 | a bundle exists exactly when both kings are on the board, and it has the 25 feature names with the shape above |
| Extraction.ExtractDiffDefined | features/features.py:283-298 | diffing two extracted bundles never raises, and reports only feature names |
| Extraction.ExtractDiffSelf | features/features.py:283-298 | a position compared with itself shows no change |
| Extraction.UnchangedFeatureOmitted | features/features.py:283-298 | a feature with the same value in both positions is not reported |
| Differ.Diff | features/features.py:283-298 | the diff's keys are keys of the newer bundle, and it is defined exactly when no key raises |
| Differ.DiffSelf | features/features.py:283-298 | any bundle compared with itself gives the empty diff |
| Differ.NewKeyCopied | features/features.py:285-288 | a key missing from the older bundle is reported with its new value |
| Differ.LeafChange | features/features.py:295-297 | a key with a plain new value is reported exactly when the old value is not an equal plain value (a mapping never equals it), with the new value |
| Differ.EmptyAfter | features/features.py:285-298 | an empty newer bundle gives an empty diff whatever the older value is, since no key is looked up |
| Differ.NestedChange | features/features.py:291-294 | a key present in both bundles that holds a mapping on the new side is reported exactly when its own diff is non-empty, and then holds that diff, never an empty mapping (a key new to the older bundle is copied as it is, empty mapping included) |
| Differ.UnchangedKeyOmitted | features/features.py:289-297 | a key with equal values on both sides is not reported |
| Differ.DroppedKeysIgnored | features/features.py:285 | keys present only in the older bundle are never reported |
| Differ.FitsNeverFails | features/features.py:286-292 | when every mapping on the new side meets a mapping on the old side, the diff never raises |
| Encoder.Slot | backend/feature_vectors.py:19-28 | a piece's slot is below 12, and below 6 exactly for White pieces |
| Encoder.SlotPiece | backend/feature_vectors.py:19-28 | every slot 0-11 stands for one piece, whose slot it is |
| Encoder.BoardPatternFeatures | backend/feature_vectors.py:15-30 | 768 entries, each 0 or 1; entry sq*12+k is 1 exactly when square sq holds the piece of slot k; decoding gives the board back; the ones equal the number of occupied squares |
| Encoder.DecodeOneHot | backend/feature_vectors.py:23-30 | any one-hot image of a board decodes to that board's squares |

## Left out

- Parsing a board from FEN (`chess.Board(fen)`) and `extract_features(curr, prev)`, which only parse two FENs and call the code above: the model starts from a board value.
- Legal-move generation, `is_attacked_by` and `is_pinned`: these belong to python-chess and are inputs here (`Oracles.Oracle`), not computed.
- python-chess's cleaning of castling rights against rook and king placement: the four castling flags are taken as stored.
- python-chess's exclusion of promoted kings from `king(color)`: promoted kings do not arise on ordinary boards.
- En passant square, move counters and move history: no feature reads them.
- The insertion order of Python dicts: Dafny maps are unordered, so the key order of a bundle and of a diff (which follows the newer bundle) is not kept; nothing the features or the differ compute depends on it.
- `move_sequence_features` and `stockfish_eval` in `backend/feature_vectors.py`: they draw random numbers or call an external engine.
- The top-level load script, `__main__` blocks, the web app and the commented-out copies of the features: not part of the feature logic.
- Features.PawnShield: its contract bounds the value; the squares inspected are pinned down only for the zero case (FeatureLaws.NoPawnShield), not for each count.
- Features.Outposts: its contract bounds the value per knight; the counted squares are characterised only for the zero case (FeatureLaws.NoOutposts).
- Features.PinnedPieces: its contract gives the bound only; the pin test itself is an input.
- Encoder.BoardPatternFeatures: the tensor's `int8` element type is not modelled; entries are unbounded integers that are always 0 or 1.
