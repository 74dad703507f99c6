/**
  `_extract_all_features`: every feature of the bank, for both colours,
  assembled into the nested bundle the differ compares. Mobility is the one
  position-wide leaf; every other feature maps "white" and "black" to a leaf,
  except pawn_structure and attacked_vs_defended, whose per-colour values are
  small records.
 */
module Extraction {
  import opened Optional
  import opened Chess
  import opened Oracles
  import opened Features
  import opened Differ

  function PerColor(w: Bundle, bl: Bundle): (r: Bundle)
    ensures r.Node? && r.fields.Keys == {"white", "black"}
    ensures r.fields["white"] == w && r.fields["black"] == bl
  {
    Node(map["white" := w, "black" := bl])
  }

  function Ints(w: int, bl: int): (r: Bundle)
    ensures IsPerColor(r, false)
  {
    PerColor(Leaf(Int(w)), Leaf(Int(bl)))
  }

  function PawnRecord(r: PawnReport): (x: Bundle)
    ensures IsRecord(x)
  {
    Node(map["doubled" := Leaf(Int(r.doubled)), "isolated" := Leaf(Int(r.isolated)),
             "passed" := Leaf(Int(r.passed))])
  }

  function BalanceRecord(r: Balance): (x: Bundle)
    ensures IsRecord(x)
  {
    Node(map["attacked" := Leaf(Int(r.attacked)), "defended" := Leaf(Int(r.defended))])
  }

  function SafetyLabel(s: Safety): string
  {
    if s == Safe then "Safe" else "Exposed"
  }

  /** The top-level keys of a bundle. */
  const FeatureNames: set<string> := {
    "material", "mobility", "king_safety", "pawn_structure", "center_control",
    "development", "rook_activity", "threats", "piece_activity",
    "piece_coordination", "bishop_pair_bonus", "open_file_control",
    "space_advantage", "weak_squares", "outposts", "pinned_pieces",
    "attacked_vs_defended", "castling_status", "king_zone_control",
    "rook_on_7th_rank", "connected_rooks", "passed_pawn_advancement",
    "pawn_shield", "backward_pawns", "isolated_weakness_clusters"
  }

  /** The features whose per-colour value is a record rather than a leaf. */
  const RecordNames: set<string> := {"pawn_structure", "attacked_vs_defended"}

  /** A record: a mapping whose values are all leaves. */
  predicate IsRecord(x: Bundle)
  {
    x.Node? && forall k :: k in x.fields ==> x.fields[k].Leaf?
  }

  /** A per-colour pair holding leaves, or records when `record` is set. */
  predicate IsPerColor(x: Bundle, record: bool)
  {
    && x.Node?
    && x.fields.Keys == {"white", "black"}
    && forall side :: side in x.fields ==>
         if record then IsRecord(x.fields[side]) else x.fields[side].Leaf?
  }

  /** The shape every extracted bundle has. */
  predicate Shaped(m: map<string, Bundle>)
  {
    && m.Keys == FeatureNames
    && (forall k :: k in m && k == "mobility" ==> m[k].Leaf?)
    && (forall k :: k in m && k != "mobility" ==> IsPerColor(m[k], k in RecordNames))
  }

  /**
    The per-colour value of a feature whose value is a number. The last
    branch, isolated_weakness_clusters, also answers for any other name,
    which Feature never passes.
   */
  function IntFeature(b: Board, o: Oracle, name: string, c: Color): int
    requires KingSquare(b, c).Some?
  {
    if name == "material" then Material(b, c)
    else if name == "center_control" then CenterControl(o, c)
    else if name == "development" then Development(b, c)
    else if name == "rook_activity" then RookActivity(b, c)
    else if name == "threats" then HangingPieces(b, o, c)
    else if name == "piece_activity" then PieceActivity(b, o, c)
    else if name == "piece_coordination" then PieceCoordination(b, o, c)
    else if name == "bishop_pair_bonus" then BishopPairBonus(b, c)
    else if name == "open_file_control" then OpenFileControl(b, c)
    else if name == "space_advantage" then SpaceAdvantage(o, c)
    else if name == "weak_squares" then WeakSquares(b, o, c)
    else if name == "outposts" then Outposts(b, o, c)
    else if name == "pinned_pieces" then PinnedPieces(b, o, c)
    else if name == "king_zone_control" then KingZoneControl(b, o, c).value
    else if name == "rook_on_7th_rank" then RookOnSeventh(b, c)
    else if name == "connected_rooks" then ConnectedRooks(b, o, c)
    else if name == "passed_pawn_advancement" then PassedPawnAdvancement(b, c)
    else if name == "pawn_shield" then PawnShield(b, c).value
    else if name == "backward_pawns" then BackwardPawns(b, c)
    else PawnStructure(b, c).isolated
  }

  /** The value stored under one top-level feature name. */
  function Feature(b: Board, o: Oracle, name: string): (r: Bundle)
    requires KingSquare(b, White).Some? && KingSquare(b, Black).Some?
    ensures name == "mobility" ==> r.Leaf?
    ensures name != "mobility" ==> IsPerColor(r, name in RecordNames)
  {
    if name == "mobility" then Leaf(Int(Mobility(o)))
    else if name == "king_safety" then
      PerColor(Leaf(Label(SafetyLabel(KingSafety(b, o, White).value))),
               Leaf(Label(SafetyLabel(KingSafety(b, o, Black).value))))
    else if name == "pawn_structure" then
      PerColor(PawnRecord(PawnStructure(b, White)), PawnRecord(PawnStructure(b, Black)))
    else if name == "attacked_vs_defended" then
      PerColor(BalanceRecord(AttackedVsDefended(b, o, White)), BalanceRecord(AttackedVsDefended(b, o, Black)))
    else if name == "castling_status" then
      PerColor(Leaf(Bool(HasCastlingRights(b, White))), Leaf(Bool(HasCastlingRights(b, Black))))
    else Ints(IntFeature(b, o, name, White), IntFeature(b, o, name, Black))
  }

  /**
    The feature bundle of a board. None when either colour has no king: the
    king-based features raise in that case and no bundle is produced.
   */
  function Extract(b: Board, o: Oracle): (r: Option<map<string, Bundle>>)
    ensures r.Some? <==> KingSquare(b, White).Some? && KingSquare(b, Black).Some?
    ensures r.Some? ==> Shaped(r.value)
  {
    if KingSquare(b, White).None? || KingSquare(b, Black).None? then None
    else Some(map name | name in FeatureNames :: Feature(b, o, name))
  }

  /** Every feature name of a bundle holds that feature's value. */
  lemma ExtractAt(b: Board, o: Oracle, name: string)
    requires Extract(b, o).Some? && name in FeatureNames
    ensures name in Extract(b, o).value && Extract(b, o).value[name] == Feature(b, o, name)
  {
  }

  /** Two extracted bundles fit each other, whatever boards they came from. */
  lemma ShapedFit(m1: map<string, Bundle>, m2: map<string, Bundle>)
    requires Shaped(m1) && Shaped(m2)
    ensures Fits(Node(m1), Node(m2))
  {
    forall k | k in m2 && k in m1 ensures Fits(m1[k], m2[k]) {
      if k != "mobility" {
        var record := k in RecordNames;
        forall side | side in m2[k].fields && side in m1[k].fields
          ensures Fits(m1[k].fields[side], m2[k].fields[side])
        {
          if record {
            assert IsRecord(m1[k].fields[side]) && IsRecord(m2[k].fields[side]);
            var x1, x2 := m1[k].fields[side], m2[k].fields[side];
            assert forall j :: j in x2.fields ==> x2.fields[j].Leaf?;
          }
        }
      }
    }
  }

  /**
    Diffing the bundles of two boards that both have their kings never fails,
    and reports only feature names.
   */
  lemma ExtractDiffDefined(b1: Board, o1: Oracle, b2: Board, o2: Oracle)
    requires Extract(b1, o1).Some? && Extract(b2, o2).Some?
    ensures Diff(Node(Extract(b1, o1).value), Extract(b2, o2).value).Some?
    ensures Diff(Node(Extract(b1, o1).value), Extract(b2, o2).value).value.Keys <= FeatureNames
  {
    ShapedFit(Extract(b1, o1).value, Extract(b2, o2).value);
    FitsNeverFails(Node(Extract(b1, o1).value), Extract(b2, o2).value);
  }

  /** A board compared with itself shows no change at all. */
  lemma ExtractDiffSelf(b: Board, o: Oracle)
    requires Extract(b, o).Some?
    ensures Diff(Node(Extract(b, o).value), Extract(b, o).value) == Some(map[])
  {
    DiffSelf(Extract(b, o).value);
  }

  /**
    A feature whose value is the same on both boards (material after a
    knight move, say) does not appear in the diff.
   */
  lemma UnchangedFeatureOmitted(b1: Board, o1: Oracle, b2: Board, o2: Oracle, name: string)
    requires Extract(b1, o1).Some? && Extract(b2, o2).Some?
    requires name in FeatureNames
    requires Feature(b1, o1, name) == Feature(b2, o2, name)
    ensures Diff(Node(Extract(b1, o1).value), Extract(b2, o2).value).Some?
    ensures name !in Diff(Node(Extract(b1, o1).value), Extract(b2, o2).value).value
  {
    ExtractDiffDefined(b1, o1, b2, o2);
    ExtractAt(b1, o1, name);
    ExtractAt(b2, o2, name);
    UnchangedKeyOmitted(Extract(b1, o1).value, Extract(b2, o2).value, name);
  }
}
