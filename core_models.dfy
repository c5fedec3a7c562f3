/** The chess-core value types. Here rank 0 is White's back rank, so a1 is
    (file 0, rank 0). A square and a game state check their own invariants
    when built; building one that breaks them fails. */
module CoreModels {
  import opened Wrappers

  datatype Color = White | Black

  datatype PieceType = P | N | B | R | Q | K

  datatype Piece = Piece(kind: PieceType, color: Color)

  datatype Square = Square(file: int, rank: int)
  {
    predicate OnBoard() {
      0 <= file <= 7 && 0 <= rank <= 7
    }
  }

  /** Building a square: fails unless both coordinates are in 0..7. */
  function NewSquare(file: int, rank: int): (r: Option<Square>)
    ensures r.Some? <==> 0 <= file <= 7 && 0 <= rank <= 7
    ensures r.Some? ==> r.value.file == file && r.value.rank == rank && r.value.OnBoard()
  {
    if 0 <= file <= 7 && 0 <= rank <= 7 then Some(Square(file, rank)) else None
  }

  datatype Move = Move(from: Square, to: Square, promotion: Option<PieceType> := None)

  /** All four rights are held unless said otherwise. */
  datatype CastlingRights = CastlingRights(
    whiteKingSide: bool := true,
    whiteQueenSide: bool := true,
    blackKingSide: bool := true,
    blackQueenSide: bool := true)

  /** A 32-bit signed integer, the width of the move counters. */
  type Int32 = x: int | -0x8000_0000 <= x < 0x8000_0000

  datatype GameState = GameState(
    board: seq<Option<Piece>>,
    sideToMove: Color,
    castling: CastlingRights,
    enPassant: Option<Square> := None,
    halfmoveClock: Int32 := 0,
    fullmoveNumber: Int32 := 1)
  {
    /** What building a state guarantees: 64 cells, and an en-passant square
        that was itself built, hence on the board. */
    predicate Valid() {
      |board| == 64 && (enPassant.Some? ==> enPassant.value.OnBoard())
    }
  }

  /** Building a game state: fails unless the board has 64 cells. */
  function NewGameState(board: seq<Option<Piece>>, sideToMove: Color, castling: CastlingRights,
                        enPassant: Option<Square>, halfmoveClock: Int32, fullmoveNumber: Int32): (r: Option<GameState>)
    requires enPassant.Some? ==> enPassant.value.OnBoard()
    ensures r.Some? <==> |board| == 64
    ensures r.Some? ==> r.value.Valid()
    ensures r.Some? ==> r.value == GameState(board, sideToMove, castling, enPassant, halfmoveClock, fullmoveNumber)
  {
    if |board| == 64 then Some(GameState(board, sideToMove, castling, enPassant, halfmoveClock, fullmoveNumber))
    else None
  }

  /** The defaults: all castling rights, no en-passant target, halfmove
      clock 0 and fullmove number 1. */
  lemma Defaults(board: seq<Option<Piece>>, side: Color)
    ensures var g := GameState(board, side, CastlingRights());
      && g.castling.whiteKingSide && g.castling.whiteQueenSide
      && g.castling.blackKingSide && g.castling.blackQueenSide
      && g.enPassant == None && g.halfmoveClock == 0 && g.fullmoveNumber == 1
      && (|board| == 64 ==> g.Valid())
  {
  }
}
