/**
  `board_pattern_features`: the board as an 8 x 8 x 12 one-hot tensor,
  flattened. Square `sq` owns the block of twelve entries starting at
  `sq * 12`; inside the block, slots 0-5 are the white pawn, knight, bishop,
  rook, queen and king, slots 6-11 the same for black.
 */
module Encoder {
  import opened Optional
  import opened Chess
  import opened Counting

  /** `piece_to_idx`. */
  function TypeIndex(kind: PieceType): nat
  {
    match kind
    case Pawn => 0
    case Knight => 1
    case Bishop => 2
    case Rook => 3
    case Queen => 4
    case King => 5
  }

  /** The slot of a piece inside its square's block. */
  function Slot(p: Piece): (k: nat)
    ensures k < 12
    ensures k < 6 <==> p.color == White
  {
    TypeIndex(p.kind) + (if p.color == White then 0 else 6)
  }

  /** The piece a slot stands for: the inverse of Slot. */
  function SlotPiece(k: int): (p: Piece)
    requires 0 <= k < 12
    ensures Slot(p) == k
  {
    var kinds := [Pawn, Knight, Bishop, Rook, Queen, King];
    Piece(kinds[k % 6], if k < 6 then White else Black)
  }

  /** Slot is one-to-one, so SlotPiece undoes it. */
  lemma SlotInjective(p: Piece, q: Piece)
    requires Slot(p) == Slot(q)
    ensures p == q
  {
  }

  /** Position of (square, slot) in the flattened tensor. */
  function Index(sq: int, k: int): int
  {
    sq * 12 + k
  }

  /** Different (square, slot) pairs land on different positions. */
  lemma IndexInjective(s1: int, k1: int, s2: int, k2: int)
    requires 0 <= k1 < 12 && 0 <= k2 < 12
    requires Index(s1, k1) == Index(s2, k2)
    ensures s1 == s2 && k1 == k2
  {
  }

  /** `v` is the one-hot image of board `b`. */
  predicate OneHotOf(v: seq<int>, b: Board)
  {
    && |v| == 768
    && forall sq, k :: 0 <= sq < 64 && 0 <= k < 12 ==>
         v[Index(sq, k)] == (if b.cells[sq] == Some(SlotPiece(k)) then 1 else 0)
  }

  /** The first slot at or after `k` of square `sq`'s block that holds a 1, decoded. */
  function FirstHot(v: seq<int>, sq: int, k: nat): (r: Option<Piece>)
    requires |v| == 768 && 0 <= sq < 64 && k <= 12
    decreases 12 - k
  {
    if k == 12 then None
    else if v[Index(sq, k)] == 1 then Some(SlotPiece(k))
    else FirstHot(v, sq, k + 1)
  }

  /** Reads a board's squares back from a tensor. */
  function Decode(v: seq<int>): (cells: seq<Option<Piece>>)
    requires |v| == 768
    ensures |cells| == 64
  {
    seq(64, sq requires 0 <= sq < 64 => FirstHot(v, sq, 0))
  }

  /** On a one-hot image, the scan of a block finds the square's piece (if its slot is not passed yet). */
  lemma {:induction false} FirstHotFinds(v: seq<int>, b: Board, sq: int, k: nat)
    requires OneHotOf(v, b) && 0 <= sq < 64 && k <= 12
    requires b.cells[sq].Some? ==> k <= Slot(b.cells[sq].value)
    ensures FirstHot(v, sq, k) == b.cells[sq]
    decreases 12 - k
  {
    if k < 12 {
      if b.cells[sq] == Some(SlotPiece(k)) {
        assert v[Index(sq, k)] == 1;
      } else {
        assert v[Index(sq, k)] == 0;
        if b.cells[sq].Some? && k == Slot(b.cells[sq].value) {
          assert SlotPiece(k) == b.cells[sq].value by {
            SlotInjective(SlotPiece(k), b.cells[sq].value);
          }
        }
        FirstHotFinds(v, b, sq, k + 1);
      }
    }
  }

  /** Decoding a one-hot image gives back the board's squares. */
  lemma DecodeOneHot(v: seq<int>, b: Board)
    requires OneHotOf(v, b)
    ensures Decode(v) == b.cells
  {
    forall sq | 0 <= sq < 64 ensures Decode(v)[sq] == b.cells[sq] {
      FirstHotFinds(v, b, sq, 0);
    }
  }

  /** The positions of the tensor that hold 1. */
  function Ones(v: seq<int>): int -> bool
  {
    i => 0 <= i < |v| && v[i] == 1
  }

  function Occupied(b: Board): int -> bool
  {
    sq => 0 <= sq < 64 && b.cells[sq].Some?
  }

  /** Inside one block, the ones seen after j slots are 1 exactly when the square's slot is below j. */
  lemma {:induction false} BlockOnes(v: seq<int>, b: Board, n: nat, j: nat)
    requires OneHotOf(v, b) && n < 64 && j <= 12
    ensures Count(12 * n + j, Ones(v))
         == Count(12 * n, Ones(v)) + (if b.cells[n].Some? && Slot(b.cells[n].value) < j then 1 else 0)
  {
    if j > 0 {
      BlockOnes(v, b, n, j - 1);
      var i := Index(n, j - 1);
      assert i == 12 * n + j - 1;
      assert Ones(v)(i) <==> b.cells[n] == Some(SlotPiece(j - 1));
      if b.cells[n].Some? && Slot(b.cells[n].value) == j - 1 {
        SlotInjective(b.cells[n].value, SlotPiece(j - 1));
      }
      assert Count(12 * n + j, Ones(v)) == Count(i, Ones(v)) + (if Ones(v)(i) then 1 else 0);
    }
  }

  /** The first n blocks hold as many ones as the first n squares hold pieces. */
  lemma {:induction false} OnesPrefix(v: seq<int>, b: Board, n: nat)
    requires OneHotOf(v, b) && n <= 64
    ensures Count(12 * n, Ones(v)) == Count(n, Occupied(b))
  {
    if n > 0 {
      OnesPrefix(v, b, n - 1);
      BlockOnes(v, b, n - 1, 12);
    }
  }

  /**
    `board_pattern_features`, as its loop over the occupied squares
    writing a 1 into a zero tensor.
   */
  method BoardPatternFeatures(b: Board) returns (v: seq<int>)
    ensures |v| == 768
    ensures forall i :: 0 <= i < 768 ==> v[i] == 0 || v[i] == 1
    ensures forall sq, k :: 0 <= sq < 64 && 0 <= k < 12 ==>
              (v[Index(sq, k)] == 1 <==> b.cells[sq] == Some(SlotPiece(k)))
    ensures Decode(v) == b.cells
    ensures Count(768, Ones(v)) == Count(64, Occupied(b))
  {
    v := seq(768, _ => 0);
    var sq := 0;
    while sq < 64
      invariant 0 <= sq <= 64 && |v| == 768
      invariant forall i :: 0 <= i < 768 ==> v[i] == 0 || v[i] == 1
      invariant forall s, k :: 0 <= s < 64 && 0 <= k < 12 ==>
                  v[Index(s, k)] == (if s < sq && b.cells[s] == Some(SlotPiece(k)) then 1 else 0)
    {
      if b.cells[sq].Some? {
        var p := b.cells[sq].value;
        var i := Index(sq, Slot(p));
        forall s, k | 0 <= s < 64 && 0 <= k < 12 && Index(s, k) == i ensures s == sq && k == Slot(p) {
          IndexInjective(s, k, sq, Slot(p));
        }
        v := v[i := 1];
      }
      sq := sq + 1;
    }
    assert OneHotOf(v, b);
    DecodeOneHot(v, b);
    OnesPrefix(v, b, 64);
  }
}
