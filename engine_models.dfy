/** The engine's value types: sides, pieces, squares and moves.
    In the engine, rank 0 is Black's back rank and rank 7 is White's. */
module EngineModels {
  import opened Wrappers

  datatype Side = White | Black
  {
    /** The opponent of this side. */
    function Other(): (o: Side)
      ensures o != this
    {
      if this == White then Black else White
    }
  }

  lemma OtherIsInvolution(s: Side)
    ensures s.Other().Other() == s && s.Other() != s
  {
  }

  datatype PieceType = King | Queen | Rook | Bishop | Knight | Pawn

  datatype Piece = Piece(kind: PieceType, side: Side)

  /** A square as a file/rank pair; nothing stops either coordinate from
      leaving 0..7, so code checks `OnBoard` before it reads a cell. */
  datatype Square = Square(file: int, rank: int)
  {
    predicate OnBoard() {
      0 <= file <= 7 && 0 <= rank <= 7
    }

    /** Row-major index of the square in the 64-cell array. */
    function Idx(): int {
      rank * 8 + file
    }
  }

  /** Kotlin's `/` and `%` on Int truncate toward zero. */
  function TruncDiv(a: int, d: int): int
    requires d > 0
  {
    if a >= 0 then a / d else -((-a) / d)
  }

  function TruncRem(a: int, d: int): int
    requires d > 0
  {
    if a >= 0 then a % d else -((-a) % d)
  }

  /** The square whose index is `i`. */
  function FromIdx(i: int): (sq: Square)
    ensures 0 <= i < 64 ==> sq.OnBoard() && sq.Idx() == i
  {
    Square(TruncRem(i, 8), TruncDiv(i, 8))
  }

  /** `FromIdx` undoes `Idx` on the board, so `Idx` is injective there. */
  lemma FromIdxOfIdx(sq: Square)
    requires sq.OnBoard()
    ensures FromIdx(sq.Idx()) == sq
  {
    var i := sq.Idx();
    assert i / 8 == sq.rank && i % 8 == sq.file;
  }

  lemma IdxInjective(a: Square, b: Square)
    requires a.OnBoard() && b.OnBoard() && a.Idx() == b.Idx()
    ensures a == b
  {
    FromIdxOfIdx(a);
    FromIdxOfIdx(b);
  }

  /** A move; the optional fields default as in the source's data class. */
  datatype Move = Move(
    from: Square,
    to: Square,
    promotion: Option<PieceType> := None,
    isCapture: bool := false,
    isEnPassant: bool := false,
    isCastleKing: bool := false,
    isCastleQueen: bool := false)

  lemma MoveDefaults(from: Square, to: Square)
    ensures var m := Move(from, to);
      m.from == from && m.to == to && m.promotion == None &&
      !m.isCapture && !m.isEnPassant && !m.isCastleKing && !m.isCastleQueen
  {
  }
}
